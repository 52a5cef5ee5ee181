/** The server's data model: the `devices`, `device_status` and `error_logs`
    tables as three sequences in insertion order. Timestamps are whole
    seconds since the Unix epoch (UTC). */
module Model {
  import opened Base

  /** A registered machine. `apiKey` is the credential agents present on
      every report; `lastSeen` is absent until the first status report. */
  datatype Device = Device(
    id: int,
    name: string,
    deviceType: string,
    apiKey: string,
    publicIp: Option<string>,
    isOnline: bool,
    lastSeen: Option<int>,
    createdAt: int,
    notes: Option<string>)

  /** The descriptive strings of a status report, stored as sent. */
  datatype RuntimeInfo = RuntimeInfo(
    openclawVersion: Option<string>,
    openclawStatus: Option<string>,
    runtime: Option<string>,
    model: Option<string>,
    thinking: Option<string>)

  /** The numeric columns of a stored status sample. Percentages, byte counts
      and byte rates are floating-point columns, modelled as reals; the two
      token counters are integer columns. */
  datatype Metrics = Metrics(
    cpuPercent: real,
    memoryPercent: real,
    memoryTotal: real,
    memoryUsed: real,
    diskPercent: real,
    diskTotal: real,
    diskUsed: real,
    uploadSpeed: real,
    downloadSpeed: real,
    contextTokens: int,
    totalTokens: int)

  const ZeroMetrics := Metrics(0.0, 0.0, 0.0, 0.0, 0.0, 0.0, 0.0, 0.0, 0.0, 0, 0)

  /** One accepted status report. `deviceId` is a lookup key, not a live
      reference: deleting the device leaves its samples in place. */
  datatype StatusSample = StatusSample(
    deviceId: int,
    timestamp: int,
    info: RuntimeInfo,
    metrics: Metrics)

  /** One accepted error report. */
  datatype ErrorSample = ErrorSample(
    deviceId: int,
    timestamp: int,
    level: string,
    message: string,
    source: Option<string>,
    stackTrace: Option<string>)

  /** The sort keys of the two sample tables, for `ORDER BY timestamp`. */
  function StatusTime(s: StatusSample): int {
    s.timestamp
  }

  function ErrorTime(e: ErrorSample): int {
    e.timestamp
  }

  /** The whole database. */
  datatype Store = Store(
    devices: seq<Device>,
    statuses: seq<StatusSample>,
    errors: seq<ErrorSample>)

  const EmptyStore := Store([], [], [])

  /** The failures the API reports: unknown credential on a report (401),
      unknown device id on a direct read or write (404), and a credential
      that collides with the unique `api_key` column, which the handler does
      not catch and so surfaces as a server error (500). */
  datatype ApiError = Unauthorized | NotFound | DuplicateKey

  /** What the table constraints and the id/key assignment guarantee: ids are
      positive and distinct (primary key), keys are non-empty and distinct
      (the unique `api_key` column). */
  predicate Valid(st: Store) {
    && (forall i :: 0 <= i < |st.devices| ==> st.devices[i].id >= 1 && st.devices[i].apiKey != "")
    && (forall i, j :: 0 <= i < j < |st.devices| ==>
          st.devices[i].id != st.devices[j].id && st.devices[i].apiKey != st.devices[j].apiKey)
  }

  predicate HasId(devices: seq<Device>, id: int) {
    exists i :: 0 <= i < |devices| && devices[i].id == id
  }

  predicate HasKey(devices: seq<Device>, key: string) {
    exists i :: 0 <= i < |devices| && devices[i].apiKey == key
  }

  /** The position of the device with primary key `id` (`WHERE id = ?`). */
  function FindById(devices: seq<Device>, id: int): (r: Option<nat>)
    ensures r.Some? ==> r.value < |devices| && devices[r.value].id == id
    ensures r.None? <==> !HasId(devices, id)
  {
    if |devices| == 0 then None
    else if devices[0].id == id then Some(0)
    else match FindById(devices[1..], id)
      case Some(i) => Some(i + 1)
      case None =>
        assert forall i :: 1 <= i < |devices| ==> devices[i] == devices[1..][i - 1];
        None
  }

  /** The position of the device holding credential `key` (`WHERE api_key = ?`). */
  function FindByKey(devices: seq<Device>, key: string): (r: Option<nat>)
    ensures r.Some? ==> r.value < |devices| && devices[r.value].apiKey == key
    ensures r.None? <==> !HasKey(devices, key)
  {
    if |devices| == 0 then None
    else if devices[0].apiKey == key then Some(0)
    else match FindByKey(devices[1..], key)
      case Some(i) => Some(i + 1)
      case None =>
        assert forall i :: 1 <= i < |devices| ==> devices[i] == devices[1..][i - 1];
        None
  }

  predicate IsOnline(d: Device) {
    d.isOnline
  }

  /** The number of devices whose online flag is set. */
  function CountOnline(devices: seq<Device>): (r: nat)
    ensures r <= |devices|
    ensures r == 0 <==> forall i :: 0 <= i < |devices| ==> !devices[i].isOnline
    ensures r == |devices| <==> forall i :: 0 <= i < |devices| ==> devices[i].isOnline
  {
    if |devices| == 0 then 0
    else
      assert forall i :: 1 <= i < |devices| ==> devices[i] == devices[1..][i - 1];
      (if devices[0].isOnline then 1 else 0) + CountOnline(devices[1..])
  }

  /** The count is `len([d for d in devices if d.is_online])`. */
  lemma {:induction false} CountOnlineIsFilter(devices: seq<Device>)
    ensures CountOnline(devices) == |Filter(devices, IsOnline)|
  {
    if |devices| > 0 {
      var d, rest := devices[0], devices[1..];
      assert devices == [d] + rest;
      FilterCons(d, rest, IsOnline);
      CountOnlineIsFilter(rest);
    }
  }

  /** Pointwise comparison of online flags: every device online in `a` is
      online in `b`. */
  predicate OnlineWithin(a: seq<Device>, b: seq<Device>) {
    |a| == |b| && forall i :: 0 <= i < |a| ==> a[i].isOnline ==> b[i].isOnline
  }

  /** Turning devices off never raises the online count. */
  lemma {:induction false} CountOnlineMonotone(a: seq<Device>, b: seq<Device>)
    requires OnlineWithin(a, b)
    ensures CountOnline(a) <= CountOnline(b)
  {
    if |a| > 0 {
      assert OnlineWithin(a[1..], b[1..]);
      CountOnlineMonotone(a[1..], b[1..]);
    }
  }
}
