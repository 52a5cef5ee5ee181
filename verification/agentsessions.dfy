/** The agent's reading of the OpenClaw sessions file: the token counters it
    reports are sums over the session entries of that JSON document, and any
    failure to read or add them makes it report a stopped runtime. */
module AgentSessions {
  import opened Base
  import opened PyText

  /** A parsed JSON document. Numbers are integers; see README. */
  datatype Json =
    | JNull
    | JBool(b: bool)
    | JNumber(n: int)
    | JString(s: string)
    | JArray(items: seq<Json>)
    | JObject(members: seq<(string, Json)>)

  /** The value a Python dict built from `ms` holds under `k`: JSON objects
      with a repeated key keep the last value. */
  function Lookup(ms: seq<(string, Json)>, k: string): (r: Option<Json>)
    ensures r.None? <==> forall i :: 0 <= i < |ms| ==> ms[i].0 != k
    ensures r.Some? ==> exists i :: 0 <= i < |ms| && ms[i] == (k, r.value) && LastWith(ms, k, i)
  {
    if |ms| == 0 then None
    else if ms[|ms| - 1].0 == k then Some(ms[|ms| - 1].1)
    else
      var init := ms[..|ms| - 1];
      var r := Lookup(init, k);
      assert forall i :: 0 <= i < |init| ==> init[i] == ms[i];
      r
  }

  /** No entry after position `i` has key `k`. */
  predicate LastWith(ms: seq<(string, Json)>, k: string, i: int) {
    forall j :: 0 <= i < j < |ms| ==> ms[j].0 != k
  }

  /** The entries of `ms` with a key other than `k`. */
  function Without(ms: seq<(string, Json)>, k: string): seq<(string, Json)> {
    Filter(ms, (m: (string, Json)) => m.0 != k)
  }

  /** `total += x` with `x` the value of a field: a missing field counts 0,
      an integer counts as itself and a boolean as 1 or 0 (`bool` is an `int`
      in Python); adding anything else raises, which is `None`. */
  function TokenValue(v: Option<Json>): (r: Option<int>)
    ensures v.None? ==> r == Some(0)
    ensures r.Some? <==> v.None? || v.value.JNumber? || v.value.JBool?
    ensures v.Some? && v.value.JNumber? ==> r == Some(v.value.n)
    ensures v.Some? && v.value.JBool? ==> r == Some(if v.value.b then 1 else 0)
  {
    match v
    case None => Some(0)
    case Some(JNumber(n)) => Some(n)
    case Some(JBool(b)) => Some(if b then 1 else 0)
    case Some(_) => None
  }

  /** What one session entry adds to the sum of `field`: only object values
      are looked into, anything else is skipped. */
  function Contribution(v: Json, field: string): Option<int> {
    if v.JObject? then TokenValue(Lookup(v.members, field)) else Some(0)
  }

  function AddOpt(a: Option<int>, b: Option<int>): Option<int> {
    if a.Some? && b.Some? then Some(a.value + b.value) else None
  }

  lemma AddOptAssoc(a: Option<int>, b: Option<int>, c: Option<int>)
    ensures AddOpt(AddOpt(a, b), c) == AddOpt(a, AddOpt(b, c))
  {
  }

  /** The loop `total += session.get(field, 0)` over the dict built from `ms`:
      each key counted once, with its last value; `None` when an addition
      raises. The order of the additions does not matter to the outcome, so
      the entries are taken from the back. */
  function FieldSum(ms: seq<(string, Json)>, field: string): Option<int>
    decreases |ms|
  {
    if |ms| == 0 then Some(0)
    else
      var init, last := ms[..|ms| - 1], ms[|ms| - 1];
      AddOpt(FieldSum(Without(init, last.0), field), Contribution(last.1, field))
  }

  /** When the sum raises, and its sign: no addition raises when every entry
      can be added, counters none of which is negative do not sum to a
      negative value, and the last entry is never shadowed, so if it cannot be
      added the loop raises. */
  lemma {:induction false} FieldSumDefined(ms: seq<(string, Json)>, field: string)
    ensures (forall i :: 0 <= i < |ms| ==> Contribution(ms[i].1, field).Some?) ==> FieldSum(ms, field).Some?
    ensures (forall i :: 0 <= i < |ms| ==> Contribution(ms[i].1, field).Some? && Contribution(ms[i].1, field).value >= 0) ==>
      FieldSum(ms, field).Some? && FieldSum(ms, field).value >= 0
    ensures |ms| > 0 && Contribution(ms[|ms| - 1].1, field).None? ==> FieldSum(ms, field).None?
    decreases |ms|
  {
    if |ms| > 0 {
      var init, last := ms[..|ms| - 1], ms[|ms| - 1];
      var rest := Without(init, last.0);
      assert forall j :: 0 <= j < |rest| ==> rest[j] in init;
      assert forall j :: 0 <= j < |init| ==> init[j] == ms[j];
      FieldSumDefined(rest, field);
    }
  }

  /** A key not used in `ms` filters nothing out. */
  lemma WithoutAbsent(ms: seq<(string, Json)>, k: string)
    requires forall i :: 0 <= i < |ms| ==> ms[i].0 != k
    ensures Without(ms, k) == ms
  {
    FilterAll(ms, (m: (string, Json)) => m.0 != k);
  }

  /** Adding an entry whose value is not an object under a new key changes no
      sum: `isinstance(session_data, dict)` skips it. */
  lemma NonObjectSkipped(ms: seq<(string, Json)>, k: string, v: Json, field: string)
    requires forall i :: 0 <= i < |ms| ==> ms[i].0 != k
    requires !v.JObject?
    ensures FieldSum(ms + [(k, v)], field) == FieldSum(ms, field)
  {
    assert (ms + [(k, v)])[..|ms|] == ms;
    WithoutAbsent(ms, k);
  }

  /** Adding a session that lacks the field under a new key changes no sum. */
  lemma MissingFieldIsZero(ms: seq<(string, Json)>, k: string, session: seq<(string, Json)>, field: string)
    requires forall i :: 0 <= i < |ms| ==> ms[i].0 != k
    requires forall i :: 0 <= i < |session| ==> session[i].0 != field
    ensures FieldSum(ms + [(k, JObject(session))], field) == FieldSum(ms, field)
  {
    assert (ms + [(k, JObject(session))])[..|ms|] == ms;
    WithoutAbsent(ms, k);
  }

  /** A later entry with the same key replaces the earlier one. */
  lemma LaterEntryWins(ms: seq<(string, Json)>, k: string, v: Json, w: Json, field: string)
    requires forall i :: 0 <= i < |ms| ==> ms[i].0 != k
    ensures FieldSum(ms + [(k, v), (k, w)], field) == FieldSum(ms + [(k, w)], field)
  {
    var both := ms + [(k, v), (k, w)];
    assert both[..|both| - 1] == ms + [(k, v)];
    assert (ms + [(k, w)])[..|ms|] == ms;
    FilterSnoc(ms, (k, v), (m: (string, Json)) => m.0 != k);
    WithoutAbsent(ms, k);
    assert Without(ms + [(k, v)], k) == ms;
    assert FieldSum(both, field) == AddOpt(FieldSum(ms, field), Contribution(w, field));
  }

  /** One step of `FieldSum`: the last entry and the sum over the entries it
      does not shadow. */
  lemma FieldSumStep(ms: seq<(string, Json)>, field: string)
    requires |ms| > 0
    ensures FieldSum(ms, field) ==
      AddOpt(FieldSum(Without(ms[..|ms| - 1], ms[|ms| - 1].0), field), Contribution(ms[|ms| - 1].1, field))
  {
  }

  /** Sessions under disjoint keys add up: the sum over two groups of
      sessions is the sum of the two groups' sums. */
  lemma {:induction false} SumsAdd(a: seq<(string, Json)>, b: seq<(string, Json)>, field: string)
    requires forall i, j :: 0 <= i < |a| && 0 <= j < |b| ==> a[i].0 != b[j].0
    ensures FieldSum(a + b, field) == AddOpt(FieldSum(a, field), FieldSum(b, field))
    decreases |b|
  {
    if |b| == 0 {
      assert a + b == a;
    } else {
      var init, last := b[..|b| - 1], b[|b| - 1];
      var ab := a + b;
      var rest := Without(init, last.0);
      var c := Contribution(last.1, field);
      assert ab[..|ab| - 1] == a + init && ab[|ab| - 1] == last;
      assert Without(a + init, last.0) == a + rest by {
        FilterAppend(a, init, (m: (string, Json)) => m.0 != last.0);
        WithoutAbsent(a, last.0);
      }
      FieldSumStep(ab, field);
      FieldSumStep(b, field);
      assert forall j :: 0 <= j < |rest| ==> rest[j] in init;
      assert forall i, j :: 0 <= i < |a| && 0 <= j < |rest| ==> a[i].0 != rest[j].0;
      SumsAdd(a, rest, field);
      var fa, fr := FieldSum(a, field), FieldSum(rest, field);
      assert FieldSum(ab, field) == AddOpt(AddOpt(fa, fr), c);
      assert FieldSum(b, field) == AddOpt(fr, c);
      AddOptAssoc(fa, fr, c);
    }
  }

  /** `data.get('sessions', data)` followed by `.items()`: the session map is
      the object under "sessions" when that key is present, otherwise the
      document itself; anything but an object there raises. */
  function Sessions(doc: Json): (r: Option<seq<(string, Json)>>)
    ensures doc.JObject? && Lookup(doc.members, "sessions").None? ==> r == Some(doc.members)
    ensures doc.JObject? && Lookup(doc.members, "sessions").Some? && Lookup(doc.members, "sessions").value.JObject? ==>
      r == Some(Lookup(doc.members, "sessions").value.members)
    ensures r.None? <==> !doc.JObject? || (Lookup(doc.members, "sessions").Some? && !Lookup(doc.members, "sessions").value.JObject?)
  {
    match doc
    case JObject(ms) =>
      (match Lookup(ms, "sessions")
       case None => Some(ms)
       case Some(JObject(ss)) => Some(ss)
       case Some(_) => None)
    case _ => None
  }

  /** The two counters, or `None` when reading them raises. */
  function Totals(doc: Json): (r: Option<(int, int)>)
    ensures Sessions(doc).None? ==> r.None?
    ensures r.Some? ==> (
      && Sessions(doc).Some?
      && FieldSum(Sessions(doc).value, "contextTokens").Some?
      && FieldSum(Sessions(doc).value, "totalTokens").Some?
      && r.value == (FieldSum(Sessions(doc).value, "contextTokens").value, FieldSum(Sessions(doc).value, "totalTokens").value))
    // sessions whose both fields can be added always give the two counters
    ensures Sessions(doc).Some? && Addable(Sessions(doc).value) ==> r.Some?
    // and the counters exist whenever both sums succeed
    ensures (
      && Sessions(doc).Some?
      && FieldSum(Sessions(doc).value, "contextTokens").Some?
      && FieldSum(Sessions(doc).value, "totalTokens").Some?) ==> r.Some?
  {
    match Sessions(doc)
    case None => None
    case Some(ss) =>
      var c, t := FieldSum(ss, "contextTokens"), FieldSum(ss, "totalTokens");
      FieldSumDefined(ss, "contextTokens");
      FieldSumDefined(ss, "totalTokens");
      if c.Some? && t.Some? then Some((c.value, t.value)) else None
  }

  /** Every session entry can be added to both counters. */
  predicate Addable(ss: seq<(string, Json)>) {
    forall i :: 0 <= i < |ss| ==>
      Contribution(ss[i].1, "contextTokens").Some? && Contribution(ss[i].1, "totalTokens").Some?
  }

  /** What the agent finds at the sessions path. */
  datatype SessionsFile = Absent | Unparsable | Parsed(doc: Json)

  /** The dictionary `get_openclaw_status` returns. */
  datatype RuntimeStatus = RuntimeStatus(
    version: string,
    status: string,
    runtime: string,
    model: string,
    thinking: string,
    contextTokens: int,
    totalTokens: int)

  const Running := "running"
  const UnknownVersion := "unknown"

  /** The fallback reported when the file is missing or cannot be used. */
  const Stopped := RuntimeStatus(UnknownVersion, "stopped", "N/A", "N/A", "N/A", 0, 0)

  /** `get_openclaw_status`, given the file and the output of
      `openclaw --version`. */
  function OpenClawStatus(file: SessionsFile, versionOutput: string): (r: RuntimeStatus)
    ensures r.status == Running <==> file.Parsed? && Totals(file.doc).Some?
    ensures r.status != Running ==> r == Stopped
    ensures r.status == Running ==>
      && (r.contextTokens, r.totalTokens) == Totals(file.doc).value
      && r.version != ""
      && r.runtime == "direct" && r.model == "unknown" && r.thinking == "off"
      && r.version == (if Strip(versionOutput) == "" then UnknownVersion else Strip(versionOutput))
  {
    if file.Parsed? && Totals(file.doc).Some? then
      var v := Strip(versionOutput);
      var counts := Totals(file.doc).value;
      RuntimeStatus(if v == "" then UnknownVersion else v, Running, "direct", "unknown", "off", counts.0, counts.1)
    else Stopped
  }

  /** A missing or unparsable file always yields the stopped status with zero
      counters, whatever the version command prints. */
  lemma NoFileIsStopped(file: SessionsFile, versionOutput: string)
    requires !file.Parsed?
    ensures OpenClawStatus(file, versionOutput) == Stopped
    ensures OpenClawStatus(file, versionOutput).contextTokens == 0
    ensures OpenClawStatus(file, versionOutput).totalTokens == 0
  {
  }
}
