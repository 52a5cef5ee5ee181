/** The monitoring read endpoints: a device's status history
    (`GET /api/devices/{id}/status`), a device's error log
    (`GET /api/devices/{id}/errors`) and the filtered global error log
    (`GET /api/errors`). All of them list newest first. */
module Listings {
  import opened Base
  import opened Model
  import Sorting

  /** The number of rows a SQL `LIMIT n` lets through out of `count`; SQLite
      reads a negative limit as no limit at all. */
  function Limited(count: nat, n: int): nat {
    if n < 0 || n >= count then count else n
  }

  /** SQL `LIMIT n` on an ordered result: its first rows. */
  function Limit<T>(s: seq<T>, n: int): (r: seq<T>)
    ensures |r| == Limited(|s|, n)
    ensures r == s[..|r|]
  {
    if n < 0 || n >= |s| then s else s[..n]
  }

  /** `ORDER BY <time> DESC`: a rearrangement of `s`, newest first. Rows
      with equal times keep their arrival order, one of the orders the
      database may return for them. */
  function NewestFirst<T>(s: seq<T>, time: T -> int): (r: seq<T>)
    ensures multiset(r) == multiset(s) && |r| == |s|
    ensures forall i, j :: 0 <= i < j < |r| ==> time(r[i]) >= time(r[j])
  {
    var r := Sorting.Sort(s, (x: T) => -time(x));
    assert forall i, j :: 0 <= i < j < |r| ==> -time(r[i]) <= -time(r[j]);
    r
  }

  /** The lower end of the history window: `now - timedelta(hours=hours)`. */
  function Since(now: int, hours: int): int {
    now - hours * 3600
  }

  predicate InHistory(s: StatusSample, id: int, since: int) {
    s.deviceId == id && s.timestamp >= since
  }

  /** `GET /api/devices/{id}/status?hours=h` at time `now`: every sample of
      that device from the last `h` hours, newest first, without a limit.
      The id is not looked up in the registry, so an unknown or deleted id
      yields its orphaned samples or nothing rather than an error. */
  function DeviceStatusHistory(st: Store, id: int, hours: int, now: int): (r: seq<StatusSample>)
    ensures forall i, j :: 0 <= i < j < |r| ==> r[i].timestamp >= r[j].timestamp
    ensures forall i :: 0 <= i < |r| ==> InHistory(r[i], id, Since(now, hours))
    ensures forall s :: multiset(r)[s] == (if InHistory(s, id, Since(now, hours)) then multiset(st.statuses)[s] else 0)
  {
    var since := Since(now, hours);
    var p := (s: StatusSample) => InHistory(s, id, since);
    var f := Filter(st.statuses, p);
    var r := NewestFirst(f, StatusTime);
    forall s ensures multiset(r)[s] == if InHistory(s, id, since) then multiset(st.statuses)[s] else 0 {
      FilterCount(st.statuses, p, s);
    }
    r
  }

  /** The `limit` newest of the errors satisfying `p`, newest first. This is
      the shape of both error listings. */
  function LatestErrors(errors: seq<ErrorSample>, p: ErrorSample -> bool, limit: int): (r: seq<ErrorSample>)
    ensures forall i, j :: 0 <= i < j < |r| ==> r[i].timestamp >= r[j].timestamp
    ensures forall i :: 0 <= i < |r| ==> r[i] in errors
    ensures forall i :: 0 <= i < |r| ==> p(r[i])
    ensures |r| == Limited(|Filter(errors, p)|, limit)
    // what the limit cuts off is never newer than what it keeps: an error
    // listed fewer times than it was selected is no newer than any listed row
    ensures forall e, i :: 0 <= i < |r| && multiset(r)[e] < (if p(e) then multiset(errors)[e] else 0) ==>
      e.timestamp <= r[i].timestamp
    // no error is listed more often than it was logged
    ensures forall e :: multiset(r)[e] <= if p(e) then multiset(errors)[e] else 0
    // with room to spare, every selected error is listed, each copy once
    ensures limit < 0 || limit >= |Filter(errors, p)| ==>
      forall e :: multiset(r)[e] == if p(e) then multiset(errors)[e] else 0
  {
    var r := Limit(NewestFirst(Filter(errors, p), ErrorTime), limit);
    LatestFacts(errors, p, limit, r);
    r
  }

  /** The contract of `LatestErrors`, gathered from the lemmas below. */
  lemma LatestFacts(errors: seq<ErrorSample>, p: ErrorSample -> bool, limit: int, r: seq<ErrorSample>)
    requires r == Limit(NewestFirst(Filter(errors, p), ErrorTime), limit)
    ensures forall i, j :: 0 <= i < j < |r| ==> r[i].timestamp >= r[j].timestamp
    ensures forall i :: 0 <= i < |r| ==> r[i] in errors
    ensures forall i :: 0 <= i < |r| ==> p(r[i])
    ensures |r| == Limited(|Filter(errors, p)|, limit)
    ensures forall e, i :: 0 <= i < |r| && multiset(r)[e] < (if p(e) then multiset(errors)[e] else 0) ==>
      e.timestamp <= r[i].timestamp
    ensures forall e :: multiset(r)[e] <= if p(e) then multiset(errors)[e] else 0
    ensures limit < 0 || limit >= |Filter(errors, p)| ==>
      forall e :: multiset(r)[e] == if p(e) then multiset(errors)[e] else 0
  {
    LatestAreSelected(errors, p, limit, r);
    LatestCutOff(errors, p, limit, r);
    LatestBounded(errors, p, limit, r);
    LatestComplete(errors, p, limit, r);
  }

  /** A prefix of the ordered selection repeats no error more often than the
      log holds it. */
  lemma LatestBounded(errors: seq<ErrorSample>, p: ErrorSample -> bool, limit: int, r: seq<ErrorSample>)
    requires r == Limit(NewestFirst(Filter(errors, p), ErrorTime), limit)
    ensures forall e :: multiset(r)[e] <= if p(e) then multiset(errors)[e] else 0
  {
    var f := Filter(errors, p);
    var all := NewestFirst(f, ErrorTime);
    assert all == r + all[|r|..];
    assert multiset(all) == multiset(r) + multiset(all[|r|..]);
    forall e ensures multiset(r)[e] <= if p(e) then multiset(errors)[e] else 0 {
      FilterCount(errors, p, e);
    }
  }

  /** Every listed error is a selected error of the log. */
  lemma LatestAreSelected(errors: seq<ErrorSample>, p: ErrorSample -> bool, limit: int, r: seq<ErrorSample>)
    requires r == Limit(NewestFirst(Filter(errors, p), ErrorTime), limit)
    ensures
      && (forall i :: 0 <= i < |r| ==> r[i] in errors)
      && (forall i :: 0 <= i < |r| ==> p(r[i]))
  {
    var f := Filter(errors, p);
    var all := NewestFirst(f, ErrorTime);
    forall i | 0 <= i < |r| ensures r[i] in errors && p(r[i]) {
      assert r[i] == all[i];
      assert all[i] in multiset(f);
    }
  }

  /** With room to spare, every selected error is listed, each copy once. */
  lemma LatestComplete(errors: seq<ErrorSample>, p: ErrorSample -> bool, limit: int, r: seq<ErrorSample>)
    requires r == Limit(NewestFirst(Filter(errors, p), ErrorTime), limit)
    ensures
      limit < 0 || limit >= |Filter(errors, p)| ==>
        forall e :: multiset(r)[e] == if p(e) then multiset(errors)[e] else 0
  {
    forall e ensures multiset(Filter(errors, p))[e] == if p(e) then multiset(errors)[e] else 0 {
      FilterCount(errors, p, e);
    }
  }

  /** A copy the limit cut off is no newer than any listed row. */
  lemma LatestCutOff(errors: seq<ErrorSample>, p: ErrorSample -> bool, limit: int, r: seq<ErrorSample>)
    requires r == Limit(NewestFirst(Filter(errors, p), ErrorTime), limit)
    ensures forall e, i :: 0 <= i < |r| && multiset(r)[e] < (if p(e) then multiset(errors)[e] else 0) ==>
      e.timestamp <= r[i].timestamp
  {
    var all := NewestFirst(Filter(errors, p), ErrorTime);
    CutOffIsOlder(ErrorTime, all, r);
    forall e ensures multiset(all)[e] == if p(e) then multiset(errors)[e] else 0 {
      FilterCount(errors, p, e);
    }
  }

  /** What a prefix of a newest-first list leaves out is never newer than
      what it keeps, counting copies: a value with more copies in the list
      than in the prefix is no newer than any row of the prefix. */
  lemma CutOffIsOlder<T>(time: T -> int, all: seq<T>, r: seq<T>)
    requires forall i, j :: 0 <= i < j < |all| ==> time(all[i]) >= time(all[j])
    requires |r| <= |all| && r == all[..|r|]
    ensures forall e, i :: 0 <= i < |r| && multiset(r)[e] < multiset(all)[e] ==> time(e) <= time(r[i])
  {
    var rest := all[|r|..];
    assert all == r + rest;
    assert multiset(all) == multiset(r) + multiset(rest);
    forall e, i | 0 <= i < |r| && multiset(r)[e] < multiset(all)[e]
      ensures time(e) <= time(r[i])
    {
      assert e in multiset(rest);
      var q :| 0 <= q < |rest| && rest[q] == e;
      assert all[|r| + q] == e;
      assert r[i] == all[i];
    }
  }

  /** The errors logged for device `id`, in log order. */
  function ErrorsOf(errors: seq<ErrorSample>, id: int): seq<ErrorSample> {
    Filter(errors, (e: ErrorSample) => e.deviceId == id)
  }

  /** `GET /api/devices/{id}/errors?limit=n`: the `n` newest errors of that
      device. As with the history, the id is not looked up. */
  function DeviceErrors(st: Store, id: int, limit: int): (r: seq<ErrorSample>)
    ensures forall i, j :: 0 <= i < j < |r| ==> r[i].timestamp >= r[j].timestamp
    ensures forall i :: 0 <= i < |r| ==> r[i] in st.errors && r[i].deviceId == id
    ensures forall e, i :: 0 <= i < |r| && multiset(r)[e] < (if e.deviceId == id then multiset(st.errors)[e] else 0) ==>
      e.timestamp <= r[i].timestamp
    ensures |r| == Limited(|ErrorsOf(st.errors, id)|, limit)
    ensures forall e :: multiset(r)[e] <= if e.deviceId == id then multiset(st.errors)[e] else 0
    ensures limit < 0 || limit >= |ErrorsOf(st.errors, id)| ==>
      forall e :: multiset(r)[e] == if e.deviceId == id then multiset(st.errors)[e] else 0
  {
    LatestErrors(st.errors, (e: ErrorSample) => e.deviceId == id, limit)
  }

  /** The filters of `GET /api/errors`, each applied only when its value is
      truthy: a device id of 0 and an empty level select everything. */
  predicate Selected(e: ErrorSample, deviceId: Option<int>, level: Option<string>) {
    && (deviceId.Some? && deviceId.value != 0 ==> e.deviceId == deviceId.value)
    && (level.Some? && level.value != "" ==> e.level == level.value)
  }

  function SelectedErrors(errors: seq<ErrorSample>, deviceId: Option<int>, level: Option<string>): seq<ErrorSample> {
    Filter(errors, (e: ErrorSample) => Selected(e, deviceId, level))
  }

  /** `GET /api/errors?device_id=..&level=..&limit=n`: the `n` newest errors
      passing the filters. */
  function AllErrors(st: Store, deviceId: Option<int>, level: Option<string>, limit: int): (r: seq<ErrorSample>)
    ensures forall i, j :: 0 <= i < j < |r| ==> r[i].timestamp >= r[j].timestamp
    ensures forall i :: 0 <= i < |r| ==> r[i] in st.errors && Selected(r[i], deviceId, level)
    ensures forall e, i :: 0 <= i < |r| && multiset(r)[e] < (if Selected(e, deviceId, level) then multiset(st.errors)[e] else 0) ==>
      e.timestamp <= r[i].timestamp
    ensures |r| == Limited(|SelectedErrors(st.errors, deviceId, level)|, limit)
    ensures forall e :: multiset(r)[e] <= if Selected(e, deviceId, level) then multiset(st.errors)[e] else 0
    ensures limit < 0 || limit >= |SelectedErrors(st.errors, deviceId, level)| ==>
      forall e :: multiset(r)[e] == if Selected(e, deviceId, level) then multiset(st.errors)[e] else 0
  {
    LatestErrors(st.errors, (e: ErrorSample) => Selected(e, deviceId, level), limit)
  }

  /** A device id of 0 is no filter at all. */
  lemma ZeroDeviceIdIsNoFilter(st: Store, level: Option<string>, limit: int)
    ensures AllErrors(st, Some(0), level, limit) == AllErrors(st, None, level, limit)
  {
    FilterSame(st.errors, (e: ErrorSample) => Selected(e, Some(0), level),
                          (e: ErrorSample) => Selected(e, None, level));
  }

  /** An empty level is no filter at all. */
  lemma EmptyLevelIsNoFilter(st: Store, deviceId: Option<int>, limit: int)
    ensures AllErrors(st, deviceId, Some(""), limit) == AllErrors(st, deviceId, None, limit)
  {
    FilterSame(st.errors, (e: ErrorSample) => Selected(e, deviceId, Some("")),
                          (e: ErrorSample) => Selected(e, deviceId, None));
  }

  /** Filtering the global log by a non-zero device id is that device's own
      error listing. */
  lemma AllErrorsOfDevice(st: Store, id: int, limit: int)
    requires id != 0
    ensures AllErrors(st, Some(id), None, limit) == DeviceErrors(st, id, limit)
  {
    FilterSame(st.errors, (e: ErrorSample) => Selected(e, Some(id), None),
                          (e: ErrorSample) => e.deviceId == id);
  }
}
