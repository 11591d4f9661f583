/** The request gate (`Middleware`): count the request in, decide on the count this
    request produced, shed or forward, and count it out on every way out. */
module Gate {
  import opened Int64Arith
  import opened Http
  import opened Engine

  /** What the gate does with one request. */
  datatype Verdict = Admit | Reject(reason: ShedReason)

  /** The gate's decision for request `r` once its own increment has returned `current`.
      The hard limit is checked first; the decider is asked only in the soft band. */
  function Admission(s: Shedder, current: int, r: Request): (v: Verdict)
    ensures v == Reject(ShedReasonHardLimit) <==> s.OverloadedAt(current)
    ensures v == Reject(ShedReasonSoftLimit) <==>
      s.SoftOverloadedAt(current) && s.shedDecider.Some? && Decides(s.shedDecider.value, r)
    ensures v.Reject? ==> v.reason == ShedReasonHardLimit || v.reason == ShedReasonSoftLimit
    ensures s.shedDecider.None? ==> (v == Admit <==> !s.OverloadedAt(current))
  {
    if current > s.hardLimit then Reject(ShedReasonHardLimit)
    else if s.softLimit > 0 && current > s.softLimit && s.shedDecider.Some? && Decides(s.shedDecider.value, r)
    then Reject(ShedReasonSoftLimit)
    else Admit
  }

  const ShedMessage: string := "Service Unavailable: load shedding active"

  /** The fixed 503 response `shed` writes (middleware.go:57-59). */
  function Rejection(reason: ShedReason): (resp: Response)
    ensures resp.status == StatusServiceUnavailable
    ensures HeaderGet(resp.header, "Retry-After") == "1"
    ensures HeaderGet(resp.header, "X-Shed-Reason") == ReasonString(reason)
    ensures HeaderGet(resp.header, "Content-Type") == PlainText
    ensures resp.body == ShedMessage + "\n"
  {
    ErrorResponse(map["Retry-After" := "1", "X-Shed-Reason" := ReasonString(reason)], ShedMessage, StatusServiceUnavailable)
  }

  /** The OnShed calls one shed makes: one, when a callback is configured. */
  function Notification(s: Shedder, r: Request, reason: ShedReason): (calls: seq<Event>)
    ensures |calls| == if s.onShed then 1 else 0
    ensures forall e :: e in calls ==> e == Notified(r, reason)
  {
    if s.onShed then [Notified(r, reason)] else []
  }

  /** `shed`: call OnShed (if set) with the reason, then write the 503 with its headers. */
  method ShedRequest(s: Shedder, r: Request, reason: ShedReason) returns (resp: Response)
    modifies s`events
    ensures s.events == old(s.events) + Notification(s, r, reason)
    ensures resp == Rejection(reason)
  {
    if s.onShed {
      s.events := s.events + [Notified(r, reason)];
    }
    var h: Header := map[];
    h := HeaderSet(h, "Retry-After", "1");
    h := HeaderSet(h, "X-Shed-Reason", ReasonString(reason));
    resp := ErrorResponse(h, ShedMessage, StatusServiceUnavailable);
  }

  /** The handler `Middleware` returns: the shedder and the handler it wraps. */
  datatype Gated = Gated(shedder: Shedder, next: Downstream)

  function Middleware(s: Shedder, next: Downstream): Gated {
    Gated(s, next)
  }

  /** `MiddlewareFunc`: a wrapper that does for every handler what `Middleware` does. */
  function MiddlewareFunc(s: Shedder): (wrap: Downstream -> Gated)
    ensures forall next :: wrap(next) == Middleware(s, next)
  {
    (next: Downstream) => Middleware(s, next)
  }

  /** Serving one request through the gate. The counter ends where it started whether the
      request is shed, served, or its handler aborts; the decision is the one `Admission`
      takes on the value the increment returned; a shed request never reaches `next`, and a
      forwarded one reaches it once, with that value in flight, and its outcome passes through. */
  method Serve(h: Gated, r: Request) returns (res: Outcome)
    modifies h.shedder
    ensures h.shedder.inflight == old(h.shedder.inflight)
    ensures
      var current := Add(old(h.shedder.inflight), 1);
      match Admission(h.shedder, current, r)
      case Reject(reason) =>
        && res == Completed(Rejection(reason))
        && h.shedder.events == old(h.shedder.events) + Notification(h.shedder, r, reason)
      case Admit =>
        && res == h.next(r)
        && h.shedder.events == old(h.shedder.events) + [Forwarded(r, current)]
  {
    var s := h.shedder;
    var current := s.Increment();
    // From here on the deferred decrement is pending; it runs below after every branch.
    if current > s.hardLimit {
      var resp := ShedRequest(s, r, ShedReasonHardLimit);
      res := Completed(resp);
    } else {
      var inSoftBand := s.softLimit > 0 && current > s.softLimit;
      if inSoftBand && s.shedDecider.Some? && Decides(s.shedDecider.value, r) {
        var resp := ShedRequest(s, r, ShedReasonSoftLimit);
        res := Completed(resp);
      } else {
        s.events := s.events + [Forwarded(r, s.inflight)];
        res := h.next(r);
      }
    }
    s.Decrement();
    AddOneThenMinusOne(old(s.inflight));
  }

  /** With no decider, a request above the soft limit but not the hard one is served. */
  lemma SoftBandWithoutDeciderServes(s: Shedder, current: int, r: Request)
    requires s.shedDecider.None?
    requires s.softLimit > 0 && current > s.softLimit && current <= s.hardLimit
    ensures Admission(s, current, r) == Admit
  {
  }

  /** The counter is an int64: from MAX64 the increment wraps to MIN64, which is above
      neither limit, so that request is admitted. */
  lemma WrappedIncrementAdmits(s: Shedder, r: Request)
    ensures Add(MAX64, 1) == MIN64
    ensures Admission(s, Add(MAX64, 1), r) == Admit
  {
  }
}
