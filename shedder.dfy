/** The admission engine: configuration, the in-flight counter and the overload queries. */
module Engine {
  import opened Int64Arith
  import opened Wrappers
  import opened Http

  /** A shed reason is a Go `int`; two of its values are named. */
  type ShedReason = Int64

  const ShedReasonHardLimit: ShedReason := 0
  const ShedReasonSoftLimit: ShedReason := 1

  /** `ShedReason.String`: the wire form used in the `X-Shed-Reason` header. */
  function ReasonString(reason: ShedReason): (s: string)
    ensures reason == ShedReasonHardLimit <==> s == "hard_limit"
    ensures reason == ShedReasonSoftLimit <==> s == "soft_limit"
    ensures reason != ShedReasonHardLimit && reason != ShedReasonSoftLimit <==> s == "unknown"
  {
    if reason == ShedReasonHardLimit then "hard_limit"
    else if reason == ShedReasonSoftLimit then "soft_limit"
    else "unknown"
  }

  /** A header name and the exact value that marks a request as sheddable. */
  datatype HeaderMatcher = HeaderMatcher(name: string, value: string)

  /** `Config`. `onShed` says whether an OnShed callback is set; what the callback
      does is not modelled, only that it is called and with which reason. */
  datatype Config = Config(
    hardLimit: Int64,
    softLimit: Int64,
    shedDecider: Option<Request -> bool>,
    shedHeader: Option<HeaderMatcher>,
    onShed: bool)

  /** The shed decider a Shedder uses: a caller's predicate, or the header test built from a
      HeaderMatcher. */
  datatype Decider = Programmable(decide: Request -> bool) | HeaderEquals(matcher: HeaderMatcher)

  /** Whether decider `d` marks request `r` for shedding. */
  function Decides(d: Decider, r: Request): (shed: bool)
    ensures d.Programmable? ==> shed == d.decide(r)
    ensures d.HeaderEquals? ==>
      (shed <==>
        || (d.matcher.name in r.header && r.header[d.matcher.name] == d.matcher.value)
        || (d.matcher.name !in r.header && d.matcher.value == ""))
  {
    match d
    case Programmable(f) => f(r)
    case HeaderEquals(m) => HeaderGet(r.header, m.name) == m.value
  }

  /** The decider `New` installs: a programmable decider wins over a header matcher. */
  function SelectDecider(cfg: Config): (d: Option<Decider>)
    ensures cfg.shedDecider.Some? ==> d == Some(Programmable(cfg.shedDecider.value))
    ensures d.Some? <==> cfg.shedDecider.Some? || cfg.shedHeader.Some?
    ensures (d.Some? && d.value.HeaderEquals?) <==> cfg.shedDecider.None? && cfg.shedHeader.Some?
    ensures cfg.shedDecider.None? && cfg.shedHeader.Some? ==>
      forall r :: Decides(d.value, r) <==> HeaderGet(r.header, cfg.shedHeader.value.name) == cfg.shedHeader.value.value
  {
    if cfg.shedDecider.Some? then Some(Programmable(cfg.shedDecider.value))
    else if cfg.shedHeader.Some? then Some(HeaderEquals(cfg.shedHeader.value))
    else None
  }

  /** Something the shedder did outside itself: a call of the OnShed callback, or a call of
      the downstream handler (with the in-flight count at that moment). */
  datatype Event = Notified(request: Request, reason: ShedReason) | Forwarded(request: Request, inflight: Int64)

  class Shedder {
    const hardLimit: Int64
    const softLimit: Int64
    var inflight: Int64
    const shedDecider: Option<Decider>
    const onShed: bool
    /** The calls this shedder made, oldest first. */
    var events: seq<Event>

    /** The struct literal and decider selection inside `New`. */
    constructor (cfg: Config)
      ensures hardLimit == cfg.hardLimit && softLimit == cfg.softLimit && onShed == cfg.onShed
      ensures shedDecider == SelectDecider(cfg)
      ensures inflight == 0 && events == []
    {
      hardLimit := cfg.hardLimit;
      softLimit := cfg.softLimit;
      onShed := cfg.onShed;
      inflight := 0;
      events := [];
      if cfg.shedDecider.Some? {
        shedDecider := Some(Programmable(cfg.shedDecider.value));
      } else if cfg.shedHeader.Some? {
        shedDecider := Some(HeaderEquals(cfg.shedHeader.value));
      } else {
        shedDecider := None;
      }
    }

    /** A count `n` is over the hard limit. */
    predicate OverloadedAt(n: int) {
      n > hardLimit
    }

    /** A count `n` is in the soft band: soft limit enabled, above it, not above the hard limit. */
    predicate SoftOverloadedAt(n: int) {
      if softLimit <= 0 then false else n > softLimit && n <= hardLimit
    }

    /** `IsOverloaded`. */
    function IsOverloaded(): (b: bool)
      reads this
      ensures b <==> inflight > hardLimit
      ensures inflight == hardLimit ==> !b
    {
      OverloadedAt(inflight)
    }

    /** `IsSoftOverloaded`. */
    function IsSoftOverloaded(): (b: bool)
      reads this
      ensures softLimit <= 0 ==> !b
      ensures softLimit > 0 ==> (b <==> softLimit < inflight <= hardLimit)
      ensures b ==> !IsOverloaded()
    {
      SoftOverloadedAt(inflight)
    }

    /** `Inflight`: one read of the counter. */
    method Inflight() returns (n: Int64)
      ensures n == inflight
    {
      n := inflight;
    }

    /** `increment`: the counter goes up by one (as an int64) and the new value is returned. */
    method Increment() returns (n: Int64)
      modifies this`inflight
      ensures inflight == Add(old(inflight), 1) && n == inflight
      ensures old(inflight) < MAX64 ==> n == old(inflight) + 1
    {
      inflight := Add(inflight, 1);
      n := inflight;
    }

    /** `decrement`: the counter goes down by one (as an int64). */
    method Decrement()
      modifies this`inflight
      ensures inflight == Add(old(inflight), -1)
      ensures old(inflight) > MIN64 ==> inflight == old(inflight) - 1
    {
      inflight := Add(inflight, -1);
    }
  }

  /** `New`: panics (here: fails) exactly when the hard limit is not positive. */
  method New(cfg: Config) returns (res: Result<Shedder>)
    ensures res.Failure? <==> cfg.hardLimit <= 0
    ensures res.Success? ==>
      && fresh(res.value)
      && res.value.hardLimit == cfg.hardLimit && res.value.softLimit == cfg.softLimit
      && res.value.onShed == cfg.onShed && res.value.shedDecider == SelectDecider(cfg)
      && res.value.inflight == 0 && res.value.events == []
  {
    if cfg.hardLimit <= 0 {
      return Failure("shedder: HardLimit must be > 0");
    }
    var s := new Shedder(cfg);
    return Success(s);
  }

  /** `NewWithLimits`: `New` with only the two limits set. */
  method NewWithLimits(hardLimit: Int64, softLimit: Int64) returns (res: Result<Shedder>)
    ensures res.Failure? <==> hardLimit <= 0
    ensures res.Success? ==>
      && fresh(res.value)
      && res.value.hardLimit == hardLimit && res.value.softLimit == softLimit
      && !res.value.onShed && res.value.shedDecider == None
      && res.value.inflight == 0 && res.value.events == []
  {
    res := New(Config(hardLimit, softLimit, None, None, false));
  }
}
