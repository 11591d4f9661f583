# kube-shedder admission control, modelled in Dafny

kube-shedder is a Go library that protects a pod from overload. A `Shedder` counts the
HTTP requests in flight. Its middleware counts each request in and decides on the count
that this request's own increment returned:

- above the hard limit, the request is shed with reason `hard_limit`;
- above a positive soft limit, it is shed with reason `soft_limit` when the configured
  decider says so;
- otherwise it goes to the wrapped handler.

A deferred decrement counts the request out on every path, a panic included. A readiness
probe answers 503 while the count is above the hard limit. A liveness probe always
answers 200.

One module per file. `Engine`, `Gate` and `Probes` follow shedder.go, middleware.go and
handler.go; the other five are support modules:

| file | module | form |
|---|---|---|
| `int64.dfy` | `Int64Arith` | Go's `int64` and the wrapping addition of `atomic.Int64.Add` |
| `fmt.dfy` | `Fmt` | the `%d` verb, and its inverse `ParseInt` |
| `http.dfy` | `Http` | header maps, requests, responses, `http.Error`, downstream outcomes |
| `wrappers.dfy` | `Wrappers` | `Option` (Go's nil) and `Result` (for the panic in `New`) |
| `shedder.dfy` | `Engine` | `ShedReason`, `Config`, deciders, the `Shedder` class, `New`, `NewWithLimits` |
| `middleware.dfy` | `Gate` | the admission decision, `shed`, the gate method, `Middleware`, `MiddlewareFunc` |
| `handler.dfy` | `Probes` | readiness and liveness responses, and the probe handlers |
| `tickets.dfy` | `Tickets` | many requests through one shedder, as interleavings of counter steps |

`Shedder` is a class. The limits, the selected decider and the "OnShed configured" flag
are `const` fields, because `New` sets them and nothing changes them afterwards. The
counter `inflight` and the log `events` are mutable fields. `events` records each OnShed
call as `Notified(request, reason)`, and each call of the downstream handler as
`Forwarded(request, inflight)`, with the count held during that call. Calls of a
programmable decider are not logged.

The downstream handler is a function from a request to an `Outcome`. The outcome is
`Completed(response)` or `Aborted`; `Aborted` is a panic, and it passes through the gate
unchanged. The gate (`Gate.Serve`) is a method. Its postcondition says that the counter
ends where it started on every outcome, and ties the response and the log to the pure
decision `Gate.Admission`. Config-time panics of `New` are `Failure` results.

The probes answer with an HTTP status, a plain-text Content-Type and a text body.

## Model

| member | source | states |
|---|---|---|
| `Int64Arith.Add` | shedder.go:138-145 | atomic `Add` on the int64 counter: the exact sum when it fits, else the int64 value congruent to the sum modulo 2^64 |
| `Int64Arith.AddOneThenMinusOne` | middleware.go:19-22 | the increment and the deferred decrement cancel for every int64 value, even across the wrap |
| `Engine.ReasonString` | shedder.go:61-70 | `HardLimit` renders as "hard_limit" and `SoftLimit` as "soft_limit", each in both directions; every other value renders as "unknown" |
| `Engine.Decides` | shedder.go:99-101 | a programmable decider is its predicate. The header matcher holds iff the header is present with exactly the value, or is absent and the value is "" (`Header.Get` returns "") |
| `Engine.SelectDecider` | shedder.go:94-103 | a programmable decider is used even when a header matcher is also set. The matcher is used only when there is no programmable decider. With neither, there is no decider |
| `Engine.Shedder.constructor` | shedder.go:88-103 | limits and the OnShed flag are copied from the config, the decider is `SelectDecider(cfg)`, the counter is 0 and the log is empty |
| `Engine.New` | shedder.go:83-106 | fails exactly when `HardLimit <= 0` (so 1 is accepted); otherwise a fresh shedder with the constructor's state |
| `Engine.NewWithLimits` | shedder.go:110-115 | `New` with only the two limits: the same failure condition, no decider, no OnShed |
| `Engine.Shedder.Inflight` | shedder.go:118-120 | returns the counter and changes nothing |
| `Engine.Shedder.IsOverloaded` | shedder.go:123-125 | true iff inflight > hardLimit; false at inflight == hardLimit |
| `Engine.Shedder.IsSoftOverloaded` | shedder.go:129-135 | false whenever softLimit <= 0; otherwise true iff softLimit < inflight <= hardLimit; never true together with `IsOverloaded` |
| `Engine.Shedder.Increment` | shedder.go:138-140 | the counter becomes `Add(old, 1)` and that value is returned (old + 1 below MAX64). Only `inflight` may change |
| `Engine.Shedder.Decrement` | shedder.go:143-145 | the counter becomes `Add(old, -1)` (old - 1 above MIN64). Only `inflight` may change |
| `Http.HeaderGet` | shedder.go:100 | `Header.Get`: the stored value, or "" when the name is absent |
| `Http.HeaderSet` | middleware.go:57-58 | `Header.Set`: the name now reads back as the value and every other entry is kept |
| `Http.ErrorResponse` | middleware.go:59 | `http.Error`: the given status, body = message + newline, plain-text Content-Type, `nosniff`; Content-Length is dropped and other headers are kept |
| `Gate.Admission` | middleware.go:24-36 | shed for `HardLimit` iff `current` > hardLimit. Shed for `SoftLimit` iff `current` is in the soft band, a decider exists and it says yes. Nothing else is shed; with no decider, only hard-limit sheds happen |
| `Gate.Rejection` | middleware.go:57-59 | status 503, `Retry-After: 1`, `X-Shed-Reason` = the reason's string, plain text, the fixed message body |
| `Gate.Notification` | middleware.go:53-55 | OnShed is called once with this request and reason when configured, and not at all otherwise |
| `Gate.ShedRequest` | middleware.go:52-60 | (`shed`) the log gains exactly the OnShed call, first; then the rejection response is produced. The counter is untouched |
| `Gate.MiddlewareFunc` | middleware.go:45-49 | the returned wrapper gives, for every handler, what `Middleware` gives |
| `Gate.Serve` | middleware.go:16-40 | The counter ends equal to its value on entry when shed, served, or aborted. The decision is `Admission` on the value this request's increment returned. A shed request gets `Rejection(reason)`, logs only its OnShed call and never reaches `next`. Otherwise `next` is called once, with that count in flight, and its outcome (an abort too) is returned |
| `Gate.SoftBandWithoutDeciderServes` | middleware.go:31-39 | soft limit exceeded, hard limit not, no decider: the request is served |
| `Gate.WrappedIncrementAdmits` | middleware.go:19-28 | at inflight = MAX64 the increment wraps to MIN64 and that request is admitted |
| `Fmt.Decimal` | handler.go:21-27 | `%d` digits: non-empty, all digits, no leading zero |
| `Fmt.FormatInt` | handler.go:21-27 | the `%d` text of an integer: non-empty, without a comma, and starting with '-' exactly when the integer is negative |
| `Fmt.ParseIntOfFormatInt` | handler.go:21-27 | every integer written by `%d` parses back to itself |
| `Probes.ReportReadsBack` | handler.go:21-27 | the text `inflight=<n>, hardLimit=<h>` reads back: it starts with "inflight=", the digits up to the first comma parse to the snapshot, and the text after ", hardLimit=" parses to the limit |
| `Probes.ReadyResponse` | handler.go:18-28 | 503 iff the snapshot is above hardLimit, 200 otherwise (including at the limit). The only header is the plain-text Content-Type. The body is "not ready: " or "ready: " followed by `inflight=<n>, hardLimit=<h>` |
| `Probes.ReadyBodyDeterminesSnapshot` | handler.go:21-27 | equal readiness bodies come from equal (inflight, hardLimit) pairs: the body reports both numbers |
| `Probes.ReadyAtAndAboveLimit` | handler.go:18-28 | hard limit 2: ready with 2 in flight, not ready with 3 |
| `Probes.HealthResponse` | handler.go:40-44 | status 200, body "ok", plain-text Content-Type |
| `Probes.ReadyHandlerFunc` | handler.go:33-35 | the same probe as `ReadyHandler` |
| `Probes.ServeProbe` | handler.go:14-45 | readiness reads the counter once, changes nothing, and returns `ReadyResponse` of that read, so it is 503 iff `IsOverloaded()`. Liveness returns `HealthResponse` whatever the request and the shedder state |
| `Tickets.CounterCountsOpenTickets` | middleware.go:19-22 | over any interleaving of at most MAX64 entries and exits, a fresh shedder's counter equals admissions minus releases (past that the int64 counter can wrap) |
| `Tickets.PairedCounter` | middleware.go:19-22 | over any interleaving of at most MAX64 steps in which every exit follows its entry, the counter is never negative and returns to 0 once all requests have left |
| `Tickets.RunEnters` | shedder.go:138-140 | with nobody leaving and n0 + k at or below MAX64, a burst of k increments on n0 reaches exactly n0 + k |
| `Tickets.BurstHardSheds` | middleware.go:19-28 | a burst of k arrives with n0 in flight and nobody leaves, and n0 + k stays at or below MAX64. Each arrival is decided on the counter its own increment produced. Exactly max(0, n0 + k - max(n0, hardLimit)) requests are hard-shed: those that pushed the count over the limit, no more |
| `Tickets.BurstAcrossWrap` | middleware.go:19-28 | with hard limit 10 and MAX64 - 1 in flight, three arrivals see MAX64, MIN64 and MIN64 + 1, so only the first is hard-shed: past the wrap the burst formula does not hold |
| `Tickets.ThreeRequestsHardLimitTwo` | integration_test.go:104-158 | hard limit 2, three requests together: two admitted, one hard-shed, and the counter is back to 0 after all have left (the return to 0 after a request is also what middleware_test.go:12-32 checks) |
| `Tickets.SeventhRequestByPriority` | middleware.go:31-36 | hard 10, soft 5, matcher `X-Priority: low`, six in flight: a seventh marked low is soft-shed. One marked high, or not marked, is admitted |

`Engine.Shedder.OverloadedAt` and `Engine.Shedder.SoftOverloadedAt` give the two overload
tests for any count; the queries and the gate share them. `Gate.Middleware`,
`Probes.ReadyHandler` and `Probes.HealthHandler` only build handler values. Their
behaviour is stated by `Gate.Serve` and `Probes.ServeProbe`.

## Left out

- Concurrency and atomicity. Each `Add` or `Load` on the counter is one sequential step.
  The gate method runs one request from start to end with nothing in between.
  Interleavings of several requests are modelled only as sequences of counter steps in
  `Tickets`. The transient over-admission of racing increments shows there as arrival
  order, and it is kept as the source has it.
- Header name canonicalisation in `Header.Get` and `Header.Set`, and multi-valued
  headers. A header is a map from an already-canonical name to its first value.
- `Engine.Decides`: the header matcher's name is assumed canonical too. In Go a matcher
  named "x-priority" still matches a request carrying `X-Priority: low`, because
  `Header.Get` canonicalises the name it is given (shedder.go:100). In the model it does
  not match.
- The response writer as mutable state. A response is a value, and the shed response
  starts from an empty header map, so headers set by earlier handlers are not modelled.
  net/http's own code is not part of this model. `http.Error` is written from its
  documented behaviour.
- What the OnShed callback and a programmable decider do. The decider is a pure
  predicate over the request. The callback is only recorded as called, with which
  request and reason.
- The header matcher's aliasing. The Go closure reads `cfg.ShedHeader` through a pointer
  at each call, so a caller who mutates the matcher after `New` changes the decider. The
  model copies the matcher at `New`.
- The downstream handler cannot re-enter the same shedder. Its effects are only the
  `Outcome` it returns. `recover` happens outside the gate and is not modelled.
- `fmt` formatting beyond `%d` on integers.
- doc.go, examples/demo/main.go (flags, server, sleeps, logging), and the test files. The
  tests are cited only as evidence for the scenario lemmas.
