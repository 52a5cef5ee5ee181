/** The agent's error loop: each new line of the gateway log is checked for
    an error keyword, and every flagged line becomes an error report to the
    server. Reading the file and posting the reports are I/O; what remains is
    the classification and the payload. */
module AgentLog {
  import opened Base
  import opened PyText
  import Ingestion

  /** The keywords searched for in the lowered line. */
  const Keywords: seq<string> := ["error", "exception", "fail", "critical"]

  /** The longest message the agent sends. */
  const MaxMessage := 500

  const ReportLevel := "error"
  const ReportSource := "gateway.log"

  /** `any(kw in line.lower() for kw in ...)`: the lowered line contains one
      of the keywords. */
  function IsErrorLine(line: string): (b: bool)
    ensures b <==> exists k :: 0 <= k < |Keywords| && Contains(Lower(line), Keywords[k])
  {
    var l := Lower(line);
    assert Keywords[0] == "error" && Keywords[1] == "exception" && Keywords[2] == "fail" && Keywords[3] == "critical";
    Contains(l, "error") || Contains(l, "exception") || Contains(l, "fail") || Contains(l, "critical")
  }

  /** The body of `POST /api/report/error` the agent builds. */
  datatype ErrorPayload = ErrorPayload(apiKey: string, level: string, message: string, source: string)

  /** `line.strip()[:500]`. */
  function Message(line: string): (m: string)
    ensures |m| <= MaxMessage
    ensures |m| == Min(|Strip(line)|, MaxMessage)
    ensures m == Strip(line)[..|m|]
  {
    var s := Strip(line);
    if |s| <= MaxMessage then s else s[..MaxMessage]
  }

  function Payload(apiKey: string, line: string): ErrorPayload {
    ErrorPayload(apiKey, ReportLevel, Message(line), ReportSource)
  }

  /** Reference definition: the payloads for `lines`, in line order, one per
      flagged line. */
  function Payloads(apiKey: string, lines: seq<string>): (ps: seq<ErrorPayload>)
    ensures |ps| <= |lines|
    ensures forall i :: 0 <= i < |ps| ==>
      && ps[i].apiKey == apiKey && ps[i].level == ReportLevel && ps[i].source == ReportSource
      && |ps[i].message| <= MaxMessage
  {
    if |lines| == 0 then []
    else
      var init, line := lines[..|lines| - 1], lines[|lines| - 1];
      Payloads(apiKey, init) + (if IsErrorLine(line) then [Payload(apiKey, line)] else [])
  }

  /** The loop over the new lines of one read of the log: the payloads posted,
      in order. */
  method ScanLines(apiKey: string, lines: seq<string>) returns (sent: seq<ErrorPayload>)
    ensures sent == Payloads(apiKey, lines)
    ensures |sent| <= |lines|
    ensures forall i :: 0 <= i < |sent| ==>
      sent[i].level == ReportLevel && sent[i].source == ReportSource && sent[i].apiKey == apiKey
  {
    sent := [];
    var n := 0;
    while n < |lines|
      invariant 0 <= n <= |lines|
      invariant sent == Payloads(apiKey, lines[..n])
    {
      var line := lines[n];
      var flagged := IsErrorLine(line);
      PayloadsStep(apiKey, lines, n);
      sent := sent + (if flagged then [Payload(apiKey, line)] else []);
      n := n + 1;
    }
    assert lines[..n] == lines;
  }

  /** One more line adds its payload when it is flagged. */
  lemma PayloadsStep(apiKey: string, lines: seq<string>, n: nat)
    requires n < |lines|
    ensures Payloads(apiKey, lines[..n + 1]) ==
      Payloads(apiKey, lines[..n]) + (if IsErrorLine(lines[n]) then [Payload(apiKey, lines[n])] else [])
  {
    assert lines[..n + 1][..n] == lines[..n];
  }

  /** A line is flagged exactly when one of the keywords occurs in it with
      ASCII case ignored. */
  lemma FlaggedIff(line: string)
    ensures IsErrorLine(line) <==>
      exists k, i :: 0 <= k < |Keywords| && OccursAt(Lower(line), Keywords[k], i)
  {
    if IsErrorLine(line) {
      var k :| 0 <= k < |Keywords| && Contains(Lower(line), Keywords[k]);
      var i :| OccursAt(Lower(line), Keywords[k], i);
    }
  }

  /** Case does not matter to the classifier. */
  lemma FlaggedIgnoresCase(line: string)
    ensures IsErrorLine(Lower(line)) == IsErrorLine(line)
  {
    LowerIdempotent(line);
  }

  /** Text around a flagged line does not unflag it. */
  lemma FlaggedInContext(p: string, line: string, q: string)
    requires IsErrorLine(line)
    ensures IsErrorLine(p + line + q)
  {
    var k :| 0 <= k < |Keywords| && Contains(Lower(line), Keywords[k]);
    LowerConcat(p + line, q);
    LowerConcat(p, line);
    ContainsWithin(Lower(p), Lower(line), Lower(q), Keywords[k]);
    assert Lower(p + line + q) == Lower(p) + Lower(line) + Lower(q);
  }

  /** Each posted payload is the one for a flagged line, and each flagged
      line is posted, in line order. */
  lemma {:induction false} PayloadsFollowLines(apiKey: string, lines: seq<string>)
    ensures |Payloads(apiKey, lines)| == |Filter(lines, IsErrorLine)|
    ensures forall i :: 0 <= i < |Payloads(apiKey, lines)| ==>
      Payloads(apiKey, lines)[i] == Payload(apiKey, Filter(lines, IsErrorLine)[i])
  {
    if |lines| > 0 {
      var init := lines[..|lines| - 1];
      assert lines == init + [lines[|lines| - 1]];
      FilterSnoc(init, lines[|lines| - 1], IsErrorLine);
      PayloadsFollowLines(apiKey, init);
    }
  }

  /** What the server receives for a payload: the agent sends no stack
      trace. */
  function AsReport(p: ErrorPayload): Ingestion.ErrorReport {
    Ingestion.ErrorReport(p.apiKey, Some(p.level), p.message, Some(p.source), None)
  }
}
