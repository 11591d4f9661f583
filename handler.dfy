/** The orchestrator probes: readiness follows `IsOverloaded` at one snapshot of the
    counter; liveness is constant. */
module Probes {
  import opened Int64Arith
  import opened Fmt
  import opened Http
  import opened Engine

  /** "inflight=<n>, hardLimit=<h>", with both numbers written by `%d`. */
  function Report(inflight: Int64, hardLimit: Int64): string {
    "inflight=" + FormatInt(inflight) + ", hardLimit=" + FormatInt(hardLimit)
  }

  /** A report reads back: the number before the first comma is the snapshot, the one
      after ", hardLimit=" is the limit. */
  lemma ReportReadsBack(inflight: Int64, hardLimit: Int64)
    ensures var s := Report(inflight, hardLimit);
      && |s| >= 9 && s[..9] == "inflight="
      && var k := 9 + FirstComma(s[9..]);
      && k + 12 <= |s|
      && ParseInt(s[9..k]) == inflight
      && s[k..k + 12] == ", hardLimit="
      && ParseInt(s[k + 12..]) == hardLimit
  {
    ReportText(FormatInt(inflight), FormatInt(hardLimit));
    ParseIntOfFormatInt(inflight);
    ParseIntOfFormatInt(hardLimit);
  }

  /** Where the two numbers sit in a report's text, when the first holds no comma. */
  lemma ReportText(x: string, y: string)
    requires ',' !in x
    ensures var t := "inflight=" + x + ", hardLimit=" + y;
      && t[..9] == "inflight="
      && FirstComma(t[9..]) == |x|
      && t[9..9 + |x|] == x
      && t[9 + |x|..9 + |x| + 12] == ", hardLimit="
      && t[9 + |x| + 12..] == y
  {
    var tail := ", hardLimit=" + y;
    var t := "inflight=" + x + ", hardLimit=" + y;
    FirstCommaAfterHead(x, tail);
    assert t[9..] == x + tail;
  }

  /** The readiness response for a counter snapshot `inflight`. */
  function ReadyResponse(inflight: Int64, hardLimit: Int64): (resp: Response)
    ensures resp.status == StatusServiceUnavailable <==> inflight > hardLimit
    ensures resp.status == StatusOK <==> inflight <= hardLimit
    ensures resp.header == map["Content-Type" := PlainText]
    ensures resp.status == StatusServiceUnavailable ==> resp.body == "not ready: " + Report(inflight, hardLimit)
    ensures resp.status == StatusOK ==> resp.body == "ready: " + Report(inflight, hardLimit)
  {
    var header := HeaderSet(map[], "Content-Type", PlainText);
    if inflight > hardLimit then
      Response(StatusServiceUnavailable, header, "not ready: " + Report(inflight, hardLimit))
    else
      Response(StatusOK, header, "ready: " + Report(inflight, hardLimit))
  }

  /** The liveness response. */
  function HealthResponse(): (resp: Response)
    ensures resp.status == StatusOK && resp.body == "ok"
    ensures HeaderGet(resp.header, "Content-Type") == PlainText
  {
    Response(StatusOK, HeaderSet(map[], "Content-Type", PlainText), "ok")
  }

  /** The probe handlers, as values. */
  datatype Probe = Readiness(shedder: Shedder) | Liveness

  function ReadyHandler(s: Shedder): Probe {
    Readiness(s)
  }

  /** `ReadyHandlerFunc` is `ReadyHandler`'s serving function: the same probe. */
  function ReadyHandlerFunc(s: Shedder): (p: Probe)
    ensures p == ReadyHandler(s)
  {
    ReadyHandler(s)
  }

  function HealthHandler(): Probe {
    Liveness
  }

  /** Answering a probe request. Readiness reads the counter once, changes nothing, and is
      503 exactly when the shedder is overloaded at that read; liveness ignores the request
      and the shedder. */
  method ServeProbe(p: Probe, r: Request) returns (resp: Response)
    ensures p.Readiness? ==> resp == ReadyResponse(p.shedder.inflight, p.shedder.hardLimit)
    ensures p.Readiness? ==> (resp.status == StatusServiceUnavailable <==> p.shedder.IsOverloaded())
    ensures p.Liveness? ==> resp == HealthResponse()
  {
    match p
    case Readiness(s) =>
      var inflight := s.Inflight();
      resp := ReadyResponse(inflight, s.hardLimit);
    case Liveness =>
      resp := HealthResponse();
  }

  /** The position of the first comma in `t`, or `|t|` when there is none. */
  function FirstComma(t: string): (i: nat)
    ensures i <= |t|
    decreases |t|
  {
    if t == [] || t[0] == ',' then 0 else 1 + FirstComma(t[1..])
  }

  lemma {:induction false} FirstCommaAfterHead(x: string, y: string)
    requires ',' !in x && |y| > 0 && y[0] == ','
    ensures FirstComma(x + y) == |x|
    decreases |x|
  {
    if x != [] {
      assert (x + y)[1..] == x[1..] + y;
      FirstCommaAfterHead(x[1..], y);
    }
  }

  /** Two reports that read the same were made from the same pair of numbers. */
  lemma ReportInjective(a: Int64, h: Int64, a': Int64, h': Int64)
    requires Report(a, h) == Report(a', h')
    ensures a == a' && h == h'
  {
    var x, y, x', y' := FormatInt(a), FormatInt(h), FormatInt(a'), FormatInt(h');
    ReportText(x, y);
    ReportText(x', y');
    var t := Report(a, h);
    assert |x| == FirstComma(t[9..]) == |x'|;
    assert x == t[9..9 + |x|] == x';
    assert y == t[9 + |x| + 12..] == y';
    FormatIntInjective(a, a');
    FormatIntInjective(h, h');
  }

  /** The readiness body reports its snapshot and the hard limit: equal bodies come from
      equal (inflight, hardLimit) pairs. */
  lemma ReadyBodyDeterminesSnapshot(a: Int64, h: Int64, a': Int64, h': Int64)
    requires ReadyResponse(a, h).body == ReadyResponse(a', h').body
    ensures a == a' && h == h'
  {
    var b := ReadyResponse(a, h).body;
    var notReady, notReady' := a > h, a' > h';
    assert b[0] == (if notReady then 'n' else 'r');
    assert b[0] == (if notReady' then 'n' else 'r');
    var k := if notReady then 11 else 7;
    assert Report(a, h) == b[k..] == Report(a', h');
    ReportInjective(a, h, a', h');
  }

  /** Readiness at the hard limit is still ready; one above it is not. */
  lemma ReadyAtAndAboveLimit()
    ensures ReadyResponse(2, 2).status == StatusOK
    ensures ReadyResponse(3, 2).status == StatusServiceUnavailable
  {
  }
}
