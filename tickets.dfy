/** Many requests through one shedder. Each request's life through the gate is two atomic
    counter steps, the increment on entry and the deferred decrement on exit; requests in
    flight together interleave their steps. A sequence of steps stands for one such
    interleaving, each step taken whole. */
module Tickets {
  import opened Int64Arith
  import opened Wrappers
  import opened Http
  import opened Engine
  import opened Gate

  datatype Step = Enter | Exit

  /** One atomic step on the counter: `Add(1)` on entry, `Add(-1)` on exit. */
  function Apply(n: Int64, st: Step): Int64 {
    match st
    case Enter => Add(n, 1)
    case Exit => Add(n, -1)
  }

  /** The counter after the steps, starting from `n`. */
  function Run(n: Int64, steps: seq<Step>): Int64
    decreases |steps|
  {
    if steps == [] then n else Apply(Run(n, steps[..|steps| - 1]), steps[|steps| - 1])
  }

  /** Tickets taken minus tickets returned. */
  function Open(steps: seq<Step>): (k: int)
    ensures -|steps| <= k <= |steps|
    decreases |steps|
  {
    if steps == [] then 0 else Open(steps[..|steps| - 1]) + (if steps[|steps| - 1] == Enter then 1 else -1)
  }

  /** The counter of a fresh shedder always equals the number of tickets out: admissions
      minus releases (short of 2^63 steps, where int64 would wrap). */
  lemma {:induction false} CounterCountsOpenTickets(steps: seq<Step>)
    requires |steps| <= MAX64
    ensures Run(0, steps) == Open(steps)
    decreases |steps|
  {
    if steps != [] {
      CounterCountsOpenTickets(steps[..|steps| - 1]);
    }
  }

  /** Every prefix has returned no more tickets than it took: each exit follows its entry. */
  predicate Paired(steps: seq<Step>) {
    forall i :: 0 <= i <= |steps| ==> Open(steps[..i]) >= 0
  }

  /** With entries and exits paired, the counter is never negative, and once every request
      has left it is back to zero. */
  lemma PairedCounter(steps: seq<Step>)
    requires |steps| <= MAX64 && Paired(steps)
    ensures Run(0, steps) >= 0
    ensures Open(steps) == 0 ==> Run(0, steps) == 0
  {
    CounterCountsOpenTickets(steps);
    assert steps[..|steps|] == steps;
  }

  function Enters(k: nat): (steps: seq<Step>)
    ensures |steps| == k && forall i :: 0 <= i < k ==> steps[i] == Enter
  {
    seq(k, _ => Enter)
  }

  /** With no one leaving, the i-th of a burst of entries sees exactly `n0 + i`. */
  lemma {:induction false} RunEnters(n0: Int64, k: nat)
    requires n0 + k <= MAX64
    ensures Run(n0, Enters(k)) == n0 + k
    decreases k
  {
    if k > 0 {
      assert Enters(k)[..k - 1] == Enters(k - 1);
      RunEnters(n0, k - 1);
    }
  }

  /** How many requests of a burst `rs` are shed for the hard limit when `n0` are in flight
      and none leaves meanwhile: the i-th (from 1) is decided on the value its own increment
      returns, the counter after i entries on top of `n0`. */
  function HardSheds(s: Shedder, n0: Int64, rs: seq<Request>): nat
    decreases |rs|
  {
    if rs == [] then 0
    else HardSheds(s, n0, rs[..|rs| - 1]) + (if Admission(s, Run(n0, Enters(|rs|)), rs[|rs| - 1]) == Reject(ShedReasonHardLimit) then 1 else 0)
  }

  function Max(a: int, b: int): int {
    if a < b then b else a
  }

  /** Exactly the requests that push the count over the hard limit are shed for it, never
      more: of a burst on top of `n0` that stays below the int64 wrap, that is every arrival
      past `max(n0, hardLimit)`. */
  lemma {:induction false} BurstHardSheds(s: Shedder, n0: Int64, rs: seq<Request>)
    requires n0 + |rs| <= MAX64
    ensures HardSheds(s, n0, rs) == Max(0, n0 + |rs| - Max(n0, s.hardLimit))
    decreases |rs|
  {
    if rs != [] {
      RunEnters(n0, |rs|);
      BurstHardSheds(s, n0, rs[..|rs| - 1]);
    }
  }

  /** Past the wrap the formula no longer holds: from MAX64 - 1 in flight with hard limit 10,
      the three arrivals see MAX64, MIN64 and MIN64 + 1, so only the first is hard-shed. */
  lemma BurstAcrossWrap(s: Shedder, r: Request)
    requires s.hardLimit == 10
    ensures Run(MAX64 - 1, Enters(3)) == MIN64 + 1
    ensures HardSheds(s, MAX64 - 1, [r, r, r]) == 1
  {
    var e := Enters(3);
    assert e[..1][..0] == [] && e[..2][..1] == e[..1] && e[..3] == e;
    assert Enters(1) == e[..1] && Enters(2) == e[..2];
    assert Run(MAX64 - 1, Enters(1)) == MAX64;
    assert Run(MAX64 - 1, Enters(2)) == MIN64;
    assert [r, r, r][..2] == [r, r] && [r, r][..1] == [r] && [r][..0] == [];
    assert HardSheds(s, MAX64 - 1, [r]) == 1;
    assert HardSheds(s, MAX64 - 1, [r, r]) == 1;
  }

  /** Three requests in flight together against hard limit 2 (soft limit off): the first two
      are admitted, the third is shed for the hard limit, and once all three have left the
      counter is back to zero. */
  lemma ThreeRequestsHardLimitTwo(s: Shedder, r: Request)
    requires s.hardLimit == 2 && s.softLimit == 0
    ensures Admission(s, 1, r) == Admit && Admission(s, 2, r) == Admit
    ensures Admission(s, 3, r) == Reject(ShedReasonHardLimit)
    ensures HardSheds(s, 0, [r, r, r]) == 1
    ensures Run(0, [Enter, Enter, Enter, Exit, Exit, Exit]) == 0
  {
    BurstHardSheds(s, 0, [r, r, r]);
    var steps := [Enter, Enter, Enter, Exit, Exit, Exit];
    CounterCountsOpenTickets(steps);
    assert steps[..1][..0] == [];
    assert Open(steps[..1]) == 1;
    assert steps[..2][..1] == steps[..1];
    assert Open(steps[..2]) == 2;
    assert steps[..3][..2] == steps[..2];
    assert Open(steps[..3]) == 3;
    assert steps[..4][..3] == steps[..3];
    assert Open(steps[..4]) == 2;
    assert steps[..5][..4] == steps[..4];
    assert Open(steps[..5]) == 1;
    assert steps[..5] == steps[..|steps| - 1];
  }

  /** Hard limit 10, soft limit 5, header matcher `X-Priority: low`, six in flight: the
      seventh is shed for the soft limit if it is marked low, and admitted if it is marked
      high or not marked. */
  lemma SeventhRequestByPriority(s: Shedder)
    requires s.hardLimit == 10 && s.softLimit == 5
    requires s.shedDecider == Some(HeaderEquals(HeaderMatcher("X-Priority", "low")))
    ensures Admission(s, 7, Request("GET", "/", map["X-Priority" := "low"])) == Reject(ShedReasonSoftLimit)
    ensures Admission(s, 7, Request("GET", "/", map["X-Priority" := "high"])) == Admit
    ensures Admission(s, 7, Request("GET", "/", map[])) == Admit
  {
  }
}
