/** The liveness sweep `check_device_online`: devices not heard from for more
    than five minutes are marked offline. */
module Liveness {
  import opened Base
  import opened Model
  import Ingestion

  /** Seconds of silence after which a device counts as gone. */
  const StaleSeconds := 300

  /** Seen at least once, and last seen strictly more than 300 s before `now`. */
  predicate IsStale(d: Device, now: int) {
    d.lastSeen.Some? && now - d.lastSeen.value > StaleSeconds
  }

  function SweepDevice(d: Device, now: int): Device {
    if IsStale(d, now) then d.(isOnline := false) else d
  }

  /** One pass over the registry at time `now`. */
  function SweepDevices(devices: seq<Device>, now: int): (r: seq<Device>)
    ensures |r| == |devices|
    // exactly the stale devices lose the flag; nobody gains it
    ensures forall i :: 0 <= i < |r| ==> (r[i].isOnline <==> devices[i].isOnline && !IsStale(devices[i], now))
    // no other field is written
    ensures forall i :: 0 <= i < |r| ==> r[i].(isOnline := devices[i].isOnline) == devices[i]
  {
    seq(|devices|, i requires 0 <= i < |devices| => SweepDevice(devices[i], now))
  }

  /** The sweep applied to the whole store; the sample tables are untouched. */
  function Sweep(st: Store, now: int): (r: Store)
    ensures r.devices == SweepDevices(st.devices, now)
    ensures r.statuses == st.statuses && r.errors == st.errors
    ensures Valid(st) ==> Valid(r)
  {
    st.(devices := SweepDevices(st.devices, now))
  }

  /** Sweeping twice at the same instant is sweeping once. */
  lemma SweepIdempotent(st: Store, now: int)
    ensures Sweep(Sweep(st, now), now) == Sweep(st, now)
  {
    var once := Sweep(st, now);
    var twice := Sweep(once, now);
    assert forall i :: 0 <= i < |st.devices| ==> twice.devices[i] == once.devices[i];
  }

  /** The sweep can only lower the online count. */
  lemma SweepNeverRaisesOnlineCount(st: Store, now: int)
    ensures CountOnline(Sweep(st, now).devices) <= CountOnline(st.devices)
  {
    CountOnlineMonotone(Sweep(st, now).devices, st.devices);
  }

  /** A device that has never reported keeps whatever flag it has. */
  lemma NeverSeenUntouched(st: Store, now: int, i: int)
    requires 0 <= i < |st.devices| && st.devices[i].lastSeen.None?
    ensures Sweep(st, now).devices[i] == st.devices[i]
  {
  }

  /** The threshold is strict: a device reported at `t` is still online at a
      sweep at `t + 300` and offline at a sweep at `t + 301`. */
  lemma ReportThenSweep(st: Store, rep: Ingestion.StatusReport, t: int, now: int)
    requires Ingestion.ReportStatus(st, rep, t).Ok?
    ensures var st1 := Ingestion.ReportStatus(st, rep, t).value;
      var i := FindByKey(st.devices, rep.apiKey).value;
      Sweep(st1, now).devices[i].isOnline <==> now - t <= StaleSeconds
  {
  }

  /** An error report is not a sign of life: a device whose only recent
      traffic is error reports is still swept offline. */
  lemma ErrorReportsDoNotKeepAlive(st: Store, rep: Ingestion.ErrorReport, t: int, now: int, i: int)
    requires Ingestion.ReportError(st, rep, t).Ok?
    requires 0 <= i < |st.devices| && IsStale(st.devices[i], now)
    ensures !Sweep(Ingestion.ReportError(st, rep, t).value, now).devices[i].isOnline
  {
  }
}
