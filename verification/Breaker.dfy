/** The per-instance circuit breaker and the round-robin client pool
    (cdr_breaker.go, cdr_pool.go).  Each breaker method is one step.

    Probe slots are given back only by an outcome.  A pick that ends without one
    (an oversize body or a cache hit, cdr_proxy.go:205-245) keeps its slot.
 */
module Breaker {
  import opened Wrappers

  datatype Config = Config(threshold: nat, resetTimeout: nat, probes: nat)

  /** Non-positive settings take their defaults. */
  function WithDefaults(threshold: int, resetTimeout: int, probes: int): (c: Config)
    ensures ValidConfig(c)
  {
    Config(if threshold <= 0 then 5 else threshold,
           if resetTimeout <= 0 then 30_000_000_000 else resetTimeout,
           if probes <= 0 then 1 else probes)
  }

  predicate ValidConfig(c: Config) {
    c.threshold > 0 && c.resetTimeout > 0 && c.probes > 0
  }

  datatype State = Closed | Open | HalfOpen

  datatype Circuit = Circuit(state: State, openedAt: int, consecFails: nat, halfOpenTried: nat)

  function Reserve(c: Config, b: Circuit): (bool, Circuit) {
    if b.halfOpenTried + 1 > c.probes then (false, b) else (true, b.(halfOpenTried := b.halfOpenTried + 1))
  }

  function Allow(c: Config, b: Circuit, now: int): (bool, Circuit) {
    match b.state
    case Closed => (true, b)
    case Open =>
      if now - b.openedAt < c.resetTimeout then (false, b)
      else Reserve(c, b.(state := HalfOpen, halfOpenTried := 0))
    case HalfOpen => Reserve(c, b)
  }

  function Succeed(b: Circuit): Circuit {
    var b' := b.(consecFails := 0);
    if b.state.HalfOpen? then b'.(state := Closed, halfOpenTried := 0) else b'
  }

  function Fail(c: Config, b: Circuit, now: int): Circuit {
    match b.state
    case Closed =>
      var b' := b.(consecFails := b.consecFails + 1);
      if b'.consecFails >= c.threshold then b'.(state := Open, openedAt := now) else b'
    case HalfOpen => b.(state := Open, openedAt := now, halfOpenTried := 0)
    case Open => b
  }

  const FORCED := Circuit(Closed, 0, 0, 0)

  class CircuitBreaker {
    const cfg: Config
    var state: State
    var openedAt: int
    var consecFails: nat
    var halfOpenTried: nat

    function View(): Circuit
      reads this
    {
      Circuit(state, openedAt, consecFails, halfOpenTried)
    }

    constructor (threshold: int, resetTimeout: int, probes: int)
      ensures View() == FORCED && cfg == WithDefaults(threshold, resetTimeout, probes) && ValidConfig(cfg)
    {
      cfg := WithDefaults(threshold, resetTimeout, probes);
      state, openedAt, consecFails, halfOpenTried := Closed, 0, 0, 0;
    }

    method TryAllow(now: int) returns (ok: bool)
      modifies this
      ensures (ok, View()) == Allow(cfg, old(View()), now)
    {
      if state.Closed? { return true; }
      if state.Open? {
        if now - openedAt < cfg.resetTimeout { return false; }
        state := HalfOpen;
        halfOpenTried := 0;
      }
      halfOpenTried := halfOpenTried + 1;
      if halfOpenTried > cfg.probes {
        halfOpenTried := halfOpenTried - 1;
        return false;
      }
      return true;
    }

    method OnSuccess()
      modifies this
      ensures View() == Succeed(old(View()))
    {
      consecFails := 0;
      if state.HalfOpen? { state, halfOpenTried := Closed, 0; }
    }

    method OnFailure(now: int)
      modifies this
      ensures View() == Fail(cfg, old(View()), now)
    {
      match state {
        case Closed =>
          consecFails := consecFails + 1;
          if consecFails >= cfg.threshold { state, openedAt := Open, now; }
        case HalfOpen =>
          state, openedAt, halfOpenTried := Open, now, 0;
        case Open =>
      }
    }

    method Reset()
      modifies this
      ensures View() == FORCED
    {
      state, consecFails, halfOpenTried, openedAt := Closed, 0, 0, 0;
    }
  }

  // ─── Runs ─────────────────────────────────────────────────────────────────

  datatype Event = Asks(now: int) | Succeeds | Fails(now: int) | Resets

  /** A breaker with what happened to it: failures since the last success or
      reset, grants in this half-open period, and the last opening. */
  datatype Run = Run(b: Circuit, failures: nat, grants: nat, lastOpened: Option<int>)

  function Step(c: Config, x: Run, e: Event): Run {
    match e
    case Asks(now) =>
      var (ok, b) := Allow(c, x.b, now);
      var entered := x.b.state.Open? && b.state.HalfOpen?;
      var grants := if entered then 0 else x.grants;
      x.(b := b, grants := if ok && b.state.HalfOpen? then grants + 1 else grants)
    case Succeeds => x.(b := Succeed(x.b), failures := 0)
    case Fails(now) =>
      x.(b := Fail(c, x.b, now), failures := x.failures + 1,
         lastOpened := if x.b.state.Open? || Fail(c, x.b, now).state.Closed? then x.lastOpened else Some(now))
    case Resets => Run(FORCED, 0, 0, None)
  }

  function Runs(c: Config, x: Run, events: seq<Event>): Run
    decreases |events|
  {
    if events == [] then x else Runs(c, Step(c, x, events[0]), events[1..])
  }

  const NEW := Run(FORCED, 0, 0, None)

  predicate Inv(c: Config, x: Run) {
    && x.b.consecFails <= x.failures
    && (x.b.state.Closed? ==> x.b.consecFails == x.failures < c.threshold)
    && (x.b.state.HalfOpen? ==> x.grants == x.b.halfOpenTried <= c.probes)
    && (x.b.state.Open? ==> x.lastOpened == Some(x.b.openedAt))
  }

  lemma {:induction false} InvAlways(c: Config, x: Run, events: seq<Event>)
    requires ValidConfig(c) && Inv(c, x)
    ensures Inv(c, Runs(c, x, events))
    decreases |events|
  {
    if events != [] { InvAlways(c, Step(c, x, events[0]), events[1..]); }
  }

  /** Over every run: a closed breaker has seen fewer than `threshold` failures in
      a row, a half-open period grants at most `probes` probes, and an open one
      grants none before the timeout since it last opened has passed. */
  lemma BreakerGuarantees(c: Config, events: seq<Event>, now: int)
    requires ValidConfig(c)
    ensures
      var x := Runs(c, NEW, events);
      && (x.b.state.Closed? ==> x.failures < c.threshold)
      && (x.b.state.HalfOpen? ==> x.grants <= c.probes && (Allow(c, x.b, now).0 <==> x.grants < c.probes))
      && (x.b.state.Open? ==> x.lastOpened.Some? && (Allow(c, x.b, now).0 <==> now - x.lastOpened.value >= c.resetTimeout))
  {
    InvAlways(c, NEW, events);
  }

  /** What outcomes do, over every run: a success closes a half-open breaker and
      clears the count; a failure opens a closed one exactly when it is the
      `threshold`-th in a row, reopens a half-open one, and starts its timeout.
      The first call after the timeout of an open one is let through as a probe. */
  lemma OutcomesSettle(c: Config, events: seq<Event>, now: int)
    requires ValidConfig(c)
    ensures
      var x := Runs(c, NEW, events);
      var (good, bad, asked) := (Step(c, x, Succeeds), Step(c, x, Fails(now)), Step(c, x, Asks(now)));
      && good.failures == 0 && good.b.consecFails == 0
      && (!x.b.state.Open? ==> good.b.state.Closed?) && (x.b.state.Open? ==> good.b.state.Open?)
      && (x.b.state.Closed? ==> (bad.b.state.Open? <==> x.failures + 1 >= c.threshold) && (bad.b.state.Closed? <==> x.failures + 1 < c.threshold))
      && (x.b.state.HalfOpen? ==> bad.b.state.Open?)
      && (!x.b.state.Open? && bad.b.state.Open? ==> bad.b.openedAt == now)
      && (x.b.state.Open? && now - x.b.openedAt >= c.resetTimeout ==> Allow(c, x.b, now).0 && asked.b.state.HalfOpen? && asked.grants == 1)
      && (x.b.state.Closed? ==> Allow(c, x.b, now).0 && asked.b == x.b)
  {
    InvAlways(c, NEW, events);
  }

  predicate OnlyAsks(events: seq<Event>) {
    forall i :: 0 <= i < |events| ==> events[i].Asks?
  }

  /** A half-open breaker whose slots are all taken stays as it is and denies
      every caller, however long, until an outcome or a reset arrives. */
  lemma {:induction false} LostSlotsAreKept(c: Config, x: Run, events: seq<Event>, now: int)
    requires ValidConfig(c) && x.b.state.HalfOpen? && x.b.halfOpenTried == c.probes && OnlyAsks(events)
    ensures Runs(c, x, events).b == x.b && !Allow(c, Runs(c, x, events).b, now).0
    decreases |events|
  {
    if events != [] {
      assert events[0].Asks?;
      LostSlotsAreKept(c, Step(c, x, events[0]), events[1..], now);
    }
  }

  // ─── The pool ─────────────────────────────────────────────────────────────

  const TWO_64 := 0x1_0000_0000_0000_0000
  const MAX_INT64 := 0x7FFF_FFFF_FFFF_FFFF

  function Wrap(i: int): int {
    if i > MAX_INT64 then i - TWO_64 else i
  }

  /** Go's remainder, which takes the sign of the dividend, then the correction. */
  function StartAt(cursor: int, n: nat): (s: nat)
    requires n > 0
    ensures s < n && s == cursor % n
  {
    var r := if cursor >= 0 then cursor % n else -((-cursor) % n);
    ModNegative(cursor, n);
    if r < 0 then r + n else r
  }

  lemma ModNegative(a: int, n: nat)
    requires n > 0
    ensures a < 0 ==> a % n == (if (-a) % n == 0 then 0 else n - (-a) % n)
  {
    if a < 0 {
      var q, r := (-a) / n, (-a) % n;
      assert -a == n * q + r;
      if r == 0 {
        ModUnique(a, n, -q, 0);
      } else {
        assert a == n * (-q - 1) + (n - r);
        ModUnique(a, n, -q - 1, n - r);
      }
    }
  }

  lemma ModUnique(a: int, n: nat, q: int, r: int)
    requires n > 0 && a == n * q + r && 0 <= r < n
    ensures a % n == r
  {
    var d := a / n - q;
    assert n * d == r - a % n;
    MultipleGrows(n, d);
  }

  lemma MultipleGrows(n: nat, d: int)
    requires n > 0
    ensures d >= 1 ==> n * d >= n
    ensures d <= -1 ==> n * d + n <= 0
  {
    if d >= 1 { assert n * d == n + n * (d - 1); }
    if d <= -1 { assert n * d + n == n * (d + 1); }
  }

  lemma ModShift(a: int, n: nat, q: int)
    requires n > 0
    ensures (a - n * q) % n == a % n
  {
    assert a - n * q == n * (a / n - q) + a % n;
    ModUnique(a - n * q, n, a / n - q, a % n);
  }

  /** A breaker that denies is left as it was: an expired open one grants at once. */
  lemma DeniedIsUnchanged(c: Config, b: Circuit, now: int)
    requires ValidConfig(c) && !Allow(c, b, now).0
    ensures Allow(c, b, now).1 == b
  {
  }

  function Ring(start: nat, i: nat, n: nat): (k: nat)
    requires n > 0
    ensures k < n
  {
    (start + i) % n
  }

  /** Going round from `start`, client `k` is the first whose breaker allows a call. */
  ghost predicate FirstFrom(c: Config, clients: seq<Circuit>, start: nat, k: nat, now: int)
    requires clients != []
  {
    exists i: nat :: i < |clients| && k == Ring(start, i, |clients|) && Allow(c, clients[k], now).0 &&
      forall j: nat :: j < i ==> !Allow(c, clients[Ring(start, j, |clients|)], now).0
  }

  class ClientPool {
    const cfg: Config
    var clients: seq<Circuit>
    var rrNext: int

    predicate Valid()
      reads this
    {
      ValidConfig(cfg) && rrNext <= MAX_INT64
    }

    /** The first client from the cursor on whose breaker lets the call through;
        the breakers passed over are left as they were. */
    method Pick(now: int) returns (k: Option<nat>)
      requires Valid()
      modifies this
      ensures Valid() && (|old(clients)| > 0 ==> rrNext == Wrap(old(rrNext) + 1))
      ensures k.None? ==> clients == old(clients) && forall j :: 0 <= j < |old(clients)| ==> !Allow(cfg, old(clients)[j], now).0
      ensures k.Some? ==>
        && k.value < |old(clients)|
        && clients == old(clients)[k.value := Allow(cfg, old(clients)[k.value], now).1]
        && FirstFrom(cfg, old(clients), StartAt(old(rrNext), |old(clients)|), k.value, now)
    {
      var n := |clients|;
      if n == 0 { return None; }
      var start := StartAt(rrNext, n);
      rrNext := Wrap(rrNext + 1);
      var i: nat := 0;
      while i < n
        invariant 0 <= i <= n && |clients| == n && clients == old(clients)
        invariant Valid() && rrNext == Wrap(old(rrNext) + 1)
        invariant forall j: nat :: j < i ==> !Allow(cfg, clients[Ring(start, j, n)], now).0
      {
        var at := Ring(start, i, n);
        var (ok, b) := Allow(cfg, clients[at], now);
        clients := clients[at := b];
        if ok { return Some(at); }
        DeniedIsUnchanged(cfg, old(clients)[at], now);
        i := i + 1;
      }
      forall j | 0 <= j < n ensures !Allow(cfg, clients[j], now).0 {
        RingCovers(start, n, j);
      }
      return None;
    }
  }

  lemma RingCovers(start: nat, n: nat, j: nat)
    requires start < n && j < n
    ensures exists i: nat :: i < n && Ring(start, i, n) == j
  {
    var i := if j >= start then j - start else j + n - start;
    if j < start { ModUnique(start + i, n, 1, j); } else { ModUnique(start + i, n, 0, j); }
    assert i < n && Ring(start, i, n) == j;
  }

  /** While every breaker is closed, a pick takes the client under the cursor. */
  lemma ClosedPoolPicksTheCursor(c: Config, clients: seq<Circuit>, start: nat, k: nat, now: int)
    requires clients != [] && start < |clients| && forall j :: 0 <= j < |clients| ==> clients[j].state.Closed?
    ensures FirstFrom(c, clients, start, k, now) <==> k == start
  {
    ModUnique(start, |clients|, 0, start);
    assert Ring(start, 0, |clients|) == start;
  }

  /** Where pick number `i` after cursor `c` starts, on the 64-bit cursor. */
  function PickAt(c: int, i: nat, n: nat): nat
    requires n > 0
  {
    StartAt(Wrap(c + i), n)
  }

  ghost predicate EachOnce(c: int, n: nat)
    requires n > 0
  {
    forall i: nat, j: nat :: i < j < n ==> PickAt(c, i, n) != PickAt(c, j, n)
  }

  lemma Distinct(c: int, i: nat, j: nat, n: nat)
    requires n > 0 && i < j < n
    ensures (c + i) % n != (c + j) % n
  {
    var p, q := (c + i) / n, (c + j) / n;
    assert j - i == n * (q - p) + ((c + j) % n - (c + i) % n);
    MultipleGrows(n, q - p);
  }

  lemma PickIs(c: int, i: nat, n: nat)
    requires 0 < n && TWO_64 % n == 0
    ensures PickAt(c, i, n) == (c + i) % n
  {
    assert TWO_64 == n * (TWO_64 / n);
    ModShift(c + i, n, TWO_64 / n);
  }

  /** With every breaker closed, `n` picks in a row visit each of `n` clients
      once, if and only if the cursor does not overflow between them or the pool
      size divides 2^64. */
  lemma RotationIsFairIff(c: int, n: nat)
    requires 0 < n <= MAX_INT64 && c <= MAX_INT64
    ensures EachOnce(c, n) <==> c + n - 1 <= MAX_INT64 || TWO_64 % n == 0
  {
    if c + n - 1 <= MAX_INT64 || TWO_64 % n == 0 {
      forall i: nat, j: nat | i < j < n ensures PickAt(c, i, n) != PickAt(c, j, n) {
        Distinct(c, i, j, n);
        if TWO_64 % n == 0 {
          PickIs(c, i, n);
          PickIs(c, j, n);
        }
      }
    } else {
      OverflowRepeats(c, n);
    }
  }

  lemma OverflowRepeats(c: int, n: nat)
    requires 0 < n <= MAX_INT64 && c <= MAX_INT64 < c + n - 1 && TWO_64 % n != 0
    ensures !EachOnce(c, n)
  {
    var a, s := MAX_INT64 - c + 1, TWO_64 % n;
    var i, j := if s >= a then 0 else a - s, if s >= a then s else a;
    assert 0 <= i < a <= j < n && j - i == s;
    assert TWO_64 == n * (TWO_64 / n) + s;
    assert Wrap(c + j) == c + i - n * (TWO_64 / n);
    ModShift(c + i, n, TWO_64 / n);
    assert PickAt(c, i, n) == PickAt(c, j, n);
  }
}
