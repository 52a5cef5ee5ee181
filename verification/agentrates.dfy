/** The agent's network rates: upload and download speed are the growth of
    the interface byte counters since the previous sample, divided by the
    elapsed wall-clock time. The previous sample lives in module state. */
module AgentRates {
  import opened Base

  /** The interface byte counters at one instant. */
  datatype NetCounters = NetCounters(bytesSent: int, bytesRecv: int)

  /** The module state carried from one sample to the next: the previous
      counters and the clock reading they were taken at, both unset before
      the first sample. */
  datatype RateState = RateState(lastNet: Option<NetCounters>, lastTime: Option<real>)

  const Initial := RateState(None, None)

  datatype Rates = Rates(upload: real, download: real)

  const NoRates := Rates(0.0, 0.0)

  /** The guard `if last_net_io and last_check_time` followed by
      `if time_diff > 0`: a previous sample exists, its clock reading is
      truthy (not 0.0), and the clock has advanced. */
  predicate CanRate(st: RateState, now: real) {
    st.lastNet.Some? && st.lastTime.Some? && st.lastTime.value != 0.0 && now - st.lastTime.value > 0.0
  }

  /** One call of `get_system_resources` that reads counters `net` at clock
      `now`: the rates it reports and the state it leaves. */
  function Sample(st: RateState, net: NetCounters, now: real): (r: (Rates, RateState))
    // the snapshot is always replaced by the current one
    ensures r.1 == RateState(Some(net), Some(now))
    // rates are the counters' growth per second when the guard holds, else zero
    ensures CanRate(st, now) ==>
      && r.0.upload * (now - st.lastTime.value) == (net.bytesSent - st.lastNet.value.bytesSent) as real
      && r.0.download * (now - st.lastTime.value) == (net.bytesRecv - st.lastNet.value.bytesRecv) as real
    ensures !CanRate(st, now) ==> r.0 == NoRates
  {
    var rates :=
      if CanRate(st, now) then
        var dt := now - st.lastTime.value;
        Rates((net.bytesSent - st.lastNet.value.bytesSent) as real / dt,
              (net.bytesRecv - st.lastNet.value.bytesRecv) as real / dt)
      else NoRates;
    (rates, RateState(Some(net), Some(now)))
  }

  /** A call whose system probes raise before the counters are read: every
      figure is zero and the state is left as it was. */
  function FailedSample(st: RateState): (r: (Rates, RateState))
    ensures r.0 == NoRates && r.1 == st
  {
    (NoRates, st)
  }

  /** The first sample after start reports zero rates. */
  lemma FirstSampleIsZero(net: NetCounters, now: real)
    ensures Sample(Initial, net, now).0 == NoRates
  {
  }

  /** Two consecutive samples at distinct times, the first at a non-zero clock
      reading, rate the second by the counters' growth in between. */
  lemma ConsecutiveSamples(st: RateState, n1: NetCounters, t1: real, n2: NetCounters, t2: real)
    requires t1 != 0.0 && t2 > t1
    ensures var second := Sample(Sample(st, n1, t1).1, n2, t2).0;
      && second.upload == (n2.bytesSent - n1.bytesSent) as real / (t2 - t1)
      && second.download == (n2.bytesRecv - n1.bytesRecv) as real / (t2 - t1)
  {
  }

  /** A clock that did not advance gives zero rates, even though the counters
      are taken over as the new snapshot. */
  lemma StalledClockIsZero(st: RateState, n1: NetCounters, t1: real, n2: NetCounters, t2: real)
    requires t2 <= t1
    ensures Sample(Sample(st, n1, t1).1, n2, t2).0 == NoRates
    ensures Sample(Sample(st, n1, t1).1, n2, t2).1 == RateState(Some(n2), Some(t2))
  {
  }

  /** A failed call in between does not disturb the next rate: it is taken
      against the last sample that succeeded. */
  lemma FailureKeepsSnapshot(st: RateState, n1: NetCounters, t1: real, n2: NetCounters, t2: real)
    requires t1 != 0.0 && t2 > t1
    ensures var after := FailedSample(Sample(st, n1, t1).1).1;
      Sample(after, n2, t2).0 == Sample(Sample(st, n1, t1).1, n2, t2).0
  {
  }
}
