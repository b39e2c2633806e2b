/** The verdict cache and half-open probe gate in front of an LDAP directory or
    an RFC 7662 introspection endpoint (auth_backend_health.go, auth_ldap.go,
    auth_oidc.go, auth_oidc_flow.go), under any number of concurrent calls.

    Time is in seconds and only moves forward.  The last six fields of `World` are
    history: what the backend answered, when a probe was granted while down, when
    the present outage began, the longest time from an answer to the clock reading
    its lifetime is counted from, and the outcome recorded last.
 */
module AuthBackend {
  import opened Wrappers

  const COOLDOWN := 3
  const MAX_CACHE := 5000

  // ─── Classifying what the backend said ────────────────────────────────────

  /** `Rejected` is an LDAP account rejection or an introspection 4xx: the
      backend is up, and nothing about the credential is remembered. */
  datatype Answer =
    | Yes(named: bool, exp: Option<int>)   // identity has a subject; declared token expiry
    | No
    | Rejected
    | Unreachable

  /** An introspection body: RFC 7662, section 2.2.  `expOk` and `allowed` are the
      declared expiry parsing and the scope and audience checks. */
  datatype Token = Token(active: bool, expOk: bool, allowed: bool, named: bool, exp: Option<int>)

  /** How one exchange with the backend ends. */
  datatype Outcome =
    | NoExchange                              // dial, STARTTLS, service bind, search or transport failed
    | LdapEntries(n: nat)                     // the search found other than one user
    | LdapBindFails(code: Option<int>)        // result code of the user bind, if it is an LDAP error
    | LdapBound(member: bool)                 // bound; in the required group, if there is one
    | Http(status: int, body: Option<Token>)  // the body, if it decodes

  /** Busy, unavailable, the client library's own codes, or no LDAP error at all. */
  predicate LdapUserBindIsUnreachable(code: Option<int>) {
    code.None? || code == Some(51) || code == Some(52) || 200 <= code.value <= 206
  }

  predicate IsIntrospectClientError(status: int) {
    status !in {429, 408, 401} && 400 <= status < 500
  }

  function Classify(o: Outcome): Answer {
    match o
    case NoExchange => Unreachable
    case LdapEntries(_) => No
    case LdapBindFails(code) =>
      if code == Some(49) then No else if LdapUserBindIsUnreachable(code) then Unreachable else Rejected
    case LdapBound(member) => if member then Yes(true, None) else No
    case Http(status, body) =>
      if status != 200 then if IsIntrospectClientError(status) then Rejected else Unreachable
      else if body.None? then Unreachable
      else if body.value.active && body.value.expOk && body.value.allowed then Yes(body.value.named, body.value.exp)
      else No
  }

  // ─── The gate ─────────────────────────────────────────────────────────────

  datatype Gate = Gate(down: bool, until: int)

  function Allowed(g: Gate, now: int): (bool, Gate) {
    if !g.down then (true, g)
    else if now < g.until then (false, g)
    else (true, g.(until := now + COOLDOWN))
  }

  function Armed(now: int): Gate {
    Gate(true, now + COOLDOWN)
  }

  function Cleared(): Gate {
    Gate(false, 0)
  }

  class AuthProbeGate {
    var down: bool
    var until: int

    function View(): Gate
      reads this
    {
      Gate(down, until)
    }

    constructor ()
      ensures View() == Cleared()
    {
      down, until := false, 0;
    }

    method Allow(now: int) returns (ok: bool)
      modifies this
      ensures (ok, View()) == Allowed(old(View()), now)
      ensures ok && old(down) ==> forall t :: now <= t < now + COOLDOWN ==> !Allowed(View(), t).0
    {
      if !down { return true; }
      if now < until { return false; }
      until := now + COOLDOWN;
      return true;
    }

    method RecordUnavailable(now: int)
      modifies this
      ensures View() == Armed(now)
      ensures forall t :: now <= t < now + COOLDOWN ==> !Allowed(View(), t).0
    {
      down := true;
      until := now + COOLDOWN;
    }

    method RecordReachable()
      modifies this
      ensures View() == Cleared() && forall t :: Allowed(View(), t) == (true, View())
    {
      down, until := false, 0;
    }
  }

  // ─── The whole backend ────────────────────────────────────────────────────

  datatype Kind = Ldap | Oidc

  datatype Reply = Reply(key: string, outcome: Outcome, at: nat)
  {
    const answer := Classify(outcome)
  }

  predicate Fits(kind: Kind, o: Outcome) {
    (o.NoExchange? || (kind.Oidc? <==> o.Http?)) && (o.LdapEntries? ==> o.n != 1)
  }

  datatype Probe = Probe(outage: nat, at: nat)

  /** A cached verdict; `source` is the reply it came from, `stamp` the clock
      reading its lifetime was computed at. */
  datatype Entry = Entry(ok: bool, expiry: int, source: nat, stamp: nat)

  /** Why a call was denied without a verdict: the gate was closed until `until`, or
      exchange `i` gave none. */
  datatype Cause = GateClosed(at: nat, until: int) | NoVerdict(i: nat)

  datatype Stage =
    | Begun
    | Missed
    | Asking
    | Answered(i: nat)
    | Recorded(i: nat)
    | Stamped(e: Entry)
    | Denied(cause: Cause)
    | Returned(verdict: Entry, at: nat)

  datatype Call = Call(key: string, stage: Stage)

  datatype World = World(
    kind: Kind, ttl: nat, now: nat, cache: map<string, Entry>, gate: Gate, calls: map<nat, Call>,
    replies: seq<Reply>, probes: seq<Probe>, outage: nat, armedAt: nat, lag: nat, recorded: Option<Outcome>)

  datatype Event =
    | Tick(d: nat)
    | Begin(t: nat, key: string)
    | CacheGet(t: nat)
    | Gated(t: nat)
    | Answers(t: nat, outcome: Outcome)
    | Record(t: nat)
    | Stamp(t: nat)
    | CacheSet(t: nat, victim: string)

  function Goto(x: World, t: nat, stage: Stage): World
    requires t in x.calls
  {
    x.(calls := x.calls[t := x.calls[t].(stage := stage)])
  }

  predicate At(x: World, t: nat, stage: Stage) {
    t in x.calls && x.calls[t].stage == stage
  }

  function Gets(x: World, t: nat): World {
    if !At(x, t, Begun) then x
    else
      var k := x.calls[t].key;
      if k in x.cache && x.now < x.cache[k].expiry then Goto(x, t, Returned(x.cache[k], x.now))
      else Goto(x, t, Missed)
  }

  function PassesGate(x: World, t: nat): World {
    if !At(x, t, Missed) then x
    else
      var (ok, g) := Allowed(x.gate, x.now);
      var x' := x.(gate := g, probes := if ok && x.gate.down then x.probes + [Probe(x.outage, x.now)] else x.probes);
      Goto(x', t, if ok then Asking else Denied(GateClosed(x.now, x.gate.until)))
  }

  function IsAnswered(x: World, t: nat, outcome: Outcome): World {
    if !At(x, t, Asking) || !Fits(x.kind, outcome) then x
    else Goto(x.(replies := x.replies + [Reply(x.calls[t].key, outcome, x.now)]), t, Answered(|x.replies|))
  }

  /** Only an unreachable backend arms the gate; every other answer clears it. */
  function Records(x: World, t: nat): World {
    if t !in x.calls || !x.calls[t].stage.Answered? || x.calls[t].stage.i >= |x.replies| then x
    else
      var i := x.calls[t].stage.i;
      var x1 := x.(recorded := Some(x.replies[i].outcome));
      match x.replies[i].answer
      case Unreachable =>
        var x2 := if x.gate.down then x1 else x1.(outage := x.outage + 1, armedAt := x.now);
        Goto(x2.(gate := Armed(x.now)), t, Denied(NoVerdict(i)))
      case Rejected => Goto(x1.(gate := Cleared()), t, Denied(NoVerdict(i)))
      case _ => Goto(x1.(gate := Cleared()), t, Recorded(i))
  }

  /** Lifetime and validity left by the token's declared expiry. */
  function ClampToExpiry(ttl: nat, exp: Option<int>, now: int): (nat, bool) {
    if exp.None? then (ttl, true)
    else if exp.value <= now then (ttl, false)
    else (if exp.value - now < ttl then exp.value - now else ttl, true)
  }

  /** The verdict to cache for an authoritative answer. */
  function Verdict(kind: Kind, ttl: nat, answer: Answer, i: nat, now: nat): Entry {
    match answer
    case Yes(named, exp) =>
      if kind.Ldap? then Entry(true, now + ttl, i, now)
      else
        var (bounded, valid) := ClampToExpiry(ttl, exp, now);
        Entry(named && valid, now + bounded, i, now)
    case _ => Entry(false, now + ttl, i, now)
  }

  function Stamps(x: World, t: nat): World {
    if t !in x.calls || !x.calls[t].stage.Recorded? || x.calls[t].stage.i >= |x.replies| then x
    else
      var i := x.calls[t].stage.i;
      var late := x.now - x.replies[i].at;
      Goto(x.(lag := if late > x.lag then late else x.lag), t, Stamped(Verdict(x.kind, x.ttl, x.replies[i].answer, i, x.now)))
  }

  /** A full cache gives up one arbitrary entry first. */
  function Sets(x: World, t: nat, victim: string): World {
    if t !in x.calls || !x.calls[t].stage.Stamped? || (|x.cache| >= MAX_CACHE && victim !in x.cache) then x
    else
      var e := x.calls[t].stage.e;
      var room := if |x.cache| >= MAX_CACHE then x.cache - {victim} else x.cache;
      Goto(x.(cache := room[x.calls[t].key := e]), t, Returned(e, e.stamp))
  }

  function Step(x: World, e: Event): World {
    match e
    case Tick(d) => x.(now := x.now + d)
    case Begin(t, key) => if t in x.calls then x else x.(calls := x.calls[t := Call(key, Begun)])
    case CacheGet(t) => Gets(x, t)
    case Gated(t) => PassesGate(x, t)
    case Answers(t, outcome) => IsAnswered(x, t, outcome)
    case Record(t) => Records(x, t)
    case Stamp(t) => Stamps(x, t)
    case CacheSet(t, victim) => Sets(x, t, victim)
  }

  function Run(x: World, events: seq<Event>): World
    decreases |events|
  {
    if events == [] then x else Run(Step(x, events[0]), events[1..])
  }

  function Initial(kind: Kind, ttl: nat, now: nat): World {
    World(kind, ttl, now, map[], Cleared(), map[], [], [], 0, 0, 0, None)
  }

  // ─── The invariant ────────────────────────────────────────────────────────

  /** A positive verdict rests on a recorded yes for its key; it lives at most
      one TTL from its stamp and no longer than the token's declared lifetime.  A
      negative one rests on a no, or on a token without subject or past its expiry. */
  predicate EntryHolds(x: World, key: string, e: Entry) {
    && e.source < |x.replies| && x.replies[e.source].key == key && Fits(x.kind, x.replies[e.source].outcome)
    && x.replies[e.source].at <= e.stamp <= x.now && e.expiry <= e.stamp + x.ttl
    && e.stamp <= x.replies[e.source].at + x.lag
    && (e.ok ==>
          && x.replies[e.source].answer.Yes?
          && (x.kind.Oidc? ==> x.replies[e.source].answer.named)
          && (x.kind.Oidc? && x.replies[e.source].answer.exp.Some? ==>
                e.stamp < x.replies[e.source].answer.exp.value && e.expiry <= x.replies[e.source].answer.exp.value))
    && (!e.ok && x.replies[e.source].answer.Yes? ==>
          && x.kind.Oidc?
          && var Yes(named, exp) := x.replies[e.source].answer; !named || (exp.Some? && exp.value <= e.stamp))
    && (x.replies[e.source].answer.Yes? || x.replies[e.source].answer.No?)
    && e.expiry == e.stamp + Lifetime(x.ttl, x.replies[e.source].outcome, e.stamp)
  }

  /** One TTL, or what the token declares to be left of its own life if that is less. */
  function Lifetime(ttl: nat, o: Outcome, now: int): int {
    if o.Http? && o.body.Some? && Classify(o).Yes? && o.body.value.exp.Some? && now < o.body.value.exp.value < now + ttl then o.body.value.exp.value - now
    else ttl
  }

  predicate CallHolds(x: World, c: Call) {
    match c.stage
    case Answered(i) => i < |x.replies| && x.replies[i].key == c.key && x.replies[i].at <= x.now && Fits(x.kind, x.replies[i].outcome)
    case Recorded(i) =>
      && i < |x.replies| && x.replies[i].key == c.key && x.replies[i].at <= x.now && Fits(x.kind, x.replies[i].outcome)
      && (x.replies[i].answer.Yes? || x.replies[i].answer.No?)
    case Stamped(e) => EntryHolds(x, c.key, e)
    case Denied(GateClosed(at, until)) => at <= x.now && at < until <= at + COOLDOWN
    case Denied(NoVerdict(i)) =>
      && i < |x.replies| && x.replies[i].key == c.key && Fits(x.kind, x.replies[i].outcome)
      && (x.replies[i].answer.Rejected? || x.replies[i].answer.Unreachable?)
    case Returned(e, at) => EntryHolds(x, c.key, e) && e.stamp <= at <= x.now && (at < e.expiry || at == e.stamp)
    case _ => true
  }

  ghost predicate GateHolds(x: World) {
    && (x.gate.down <==> x.recorded.Some? && Classify(x.recorded.value).Unreachable?)
    && (x.gate.down ==> x.armedAt + COOLDOWN <= x.gate.until <= x.now + COOLDOWN && x.armedAt <= x.now)
    && (forall i :: 0 <= i < |x.probes| ==> x.probes[i].outage <= x.outage)
    && (forall i :: 0 <= i < |x.probes| && x.gate.down && x.probes[i].outage == x.outage ==>
          x.armedAt + COOLDOWN <= x.probes[i].at && x.probes[i].at + COOLDOWN <= x.gate.until)
    && forall i, j :: 0 <= i < j < |x.probes| && x.probes[i].outage == x.probes[j].outage ==>
         x.probes[i].at + COOLDOWN <= x.probes[j].at
  }

  ghost predicate Inv(x: World) {
    && |x.cache| <= MAX_CACHE
    && (forall k :: k in x.cache ==> EntryHolds(x, k, x.cache[k]))
    && (forall t :: t in x.calls ==> CallHolds(x, x.calls[t]))
    && GateHolds(x)
  }

  /** What later states keep: replies only grow, time only moves on. */
  predicate Later(x: World, y: World) {
    && x.kind == y.kind && x.ttl == y.ttl && x.now <= y.now && x.lag <= y.lag
    && |x.replies| <= |y.replies| && y.replies[..|x.replies|] == x.replies
  }

  lemma EntryKept(x: World, y: World, key: string, e: Entry)
    requires Later(x, y) && EntryHolds(x, key, e)
    ensures EntryHolds(y, key, e)
  {
    assert y.replies[e.source] == y.replies[..|x.replies|][e.source];
  }

  lemma CallKept(x: World, y: World, c: Call)
    requires Later(x, y) && CallHolds(x, c)
    ensures CallHolds(y, c)
  {
    match c.stage {
      case Answered(i) => assert y.replies[i] == y.replies[..|x.replies|][i];
      case Recorded(i) => assert y.replies[i] == y.replies[..|x.replies|][i];
      case Denied(NoVerdict(i)) => assert y.replies[i] == y.replies[..|x.replies|][i];
      case Stamped(e) => EntryKept(x, y, c.key, e);
      case Returned(e, _) => EntryKept(x, y, c.key, e);
      case _ =>
    }
  }

  /** One call moves; the cache may gain its verdict and lose others. */
  lemma Assemble(x: World, y: World, t: nat)
    requires Inv(x) && Later(x, y) && GateHolds(y) && |y.cache| <= MAX_CACHE
    requires forall o :: o in y.calls && o != t ==> o in x.calls && y.calls[o] == x.calls[o]
    requires t in y.calls ==> CallHolds(y, y.calls[t])
    requires forall k :: k in y.cache ==> (k in x.cache && y.cache[k] == x.cache[k]) || EntryHolds(y, k, y.cache[k])
    ensures Inv(y)
  {
    forall k | k in y.cache ensures EntryHolds(y, k, y.cache[k]) {
      if k in x.cache && y.cache[k] == x.cache[k] { EntryKept(x, y, k, x.cache[k]); }
    }
    forall o | o in y.calls ensures CallHolds(y, y.calls[o]) {
      if o != t { CallKept(x, y, x.calls[o]); }
    }
  }

  /** A call that only moves on to its next stage. */
  lemma GotoKeeps(x: World, t: nat, stage: Stage)
    requires Inv(x) && t in x.calls && CallHolds(x, x.calls[t].(stage := stage))
    ensures Inv(Goto(x, t, stage))
  {
    var y := Goto(x, t, stage);
    CallKept(x, y, x.calls[t].(stage := stage));
    Assemble(x, y, t);
  }

  lemma PassesGateKeeps(x: World, t: nat)
    requires Inv(x)
    ensures Inv(Step(x, Gated(t)))
  {
    if At(x, t, Missed) {
      PassesGateKeepsGate(x, t);
      Assemble(x, PassesGate(x, t), t);
    }
  }

  lemma PassesGateKeepsGate(x: World, t: nat)
    requires GateHolds(x) && At(x, t, Missed)
    ensures GateHolds(PassesGate(x, t))
  {
    var y := PassesGate(x, t);
    if Allowed(x.gate, x.now).0 && x.gate.down {
      assert y.probes == x.probes + [Probe(x.outage, x.now)];
      forall i, j | 0 <= i < j < |y.probes| && y.probes[i].outage == y.probes[j].outage
        ensures y.probes[i].at + COOLDOWN <= y.probes[j].at
      {
        assert y.probes[i] == x.probes[i];
      }
    }
  }

  lemma RecordsKeeps(x: World, t: nat)
    requires Inv(x)
    ensures Inv(Step(x, Record(t)))
  {
    if t in x.calls && x.calls[t].stage.Answered? {
      assert CallHolds(x, x.calls[t]);
      RecordsKeepsGate(x, t);
      RecordsKeepsCall(x, t);
      Assemble(x, Records(x, t), t);
    }
  }

  lemma RecordsKeepsGate(x: World, t: nat)
    requires GateHolds(x)
    ensures GateHolds(Records(x, t))
  {
    var y := Records(x, t);
    assert y.probes == x.probes && y.now == x.now;
    assert y.gate == x.gate || y.gate == Armed(x.now) || !y.gate.down;
  }

  lemma RecordsKeepsCall(x: World, t: nat)
    requires t in x.calls && x.calls[t].stage.Answered? && CallHolds(x, x.calls[t])
    ensures var y := Records(x, t); Later(x, y) && y.cache == x.cache && t in y.calls && CallHolds(y, y.calls[t])
    ensures forall o :: o in Records(x, t).calls && o != t ==> o in x.calls && Records(x, t).calls[o] == x.calls[o]
  {
  }

  lemma VerdictHolds(x: World, key: string, i: nat)
    requires i < |x.replies| && x.replies[i].key == key && x.replies[i].at <= x.now <= x.replies[i].at + x.lag && Fits(x.kind, x.replies[i].outcome)
    requires x.replies[i].answer.Yes? || x.replies[i].answer.No?
    ensures EntryHolds(x, key, Verdict(x.kind, x.ttl, x.replies[i].answer, i, x.now))
  {
  }

  lemma StampsKeeps(x: World, t: nat)
    requires Inv(x)
    ensures Inv(Step(x, Stamp(t)))
  {
    if t in x.calls && x.calls[t].stage.Recorded? {
      assert CallHolds(x, x.calls[t]);
      var i := x.calls[t].stage.i;
      StampsIs(x, t);
      StampKeeps(x, t, i, LagWith(x, i));
    }
  }

  function LagWith(x: World, i: nat): nat
    requires i < |x.replies|
  {
    if x.now - x.replies[i].at > x.lag then x.now - x.replies[i].at else x.lag
  }

  lemma StampsIs(x: World, t: nat)
    requires t in x.calls && x.calls[t].stage.Recorded? && x.calls[t].stage.i < |x.replies|
    ensures
      var i := x.calls[t].stage.i;
      Step(x, Stamp(t)) == Goto(x.(lag := LagWith(x, i)), t, Stamped(Verdict(x.kind, x.ttl, x.replies[i].answer, i, x.now)))
  {
  }

  lemma StampKeeps(x: World, t: nat, i: nat, lag: nat)
    requires Inv(x) && t in x.calls && x.lag <= lag
    requires i < |x.replies| && x.replies[i].key == x.calls[t].key && x.replies[i].at <= x.now <= x.replies[i].at + lag
    requires Fits(x.kind, x.replies[i].outcome)
    requires x.replies[i].answer.Yes? || x.replies[i].answer.No?
    ensures Inv(Goto(x.(lag := lag), t, Stamped(Verdict(x.kind, x.ttl, x.replies[i].answer, i, x.now))))
  {
    var x' := x.(lag := lag);
    LagKeeps(x, lag);
    VerdictHolds(x', x.calls[t].key, i);
    GotoKeeps(x', t, Stamped(Verdict(x.kind, x.ttl, x.replies[i].answer, i, x.now)));
  }

  lemma LagKeeps(x: World, lag: nat)
    requires Inv(x) && x.lag <= lag
    ensures Inv(x.(lag := lag))
  {
    var y := x.(lag := lag);
    forall t | t in y.calls ensures CallHolds(y, y.calls[t]) { CallKept(x, y, x.calls[t]); }
    Assemble(x, y, 0);
  }

  lemma EvictionBoundsCache(cache: map<string, Entry>, victim: string, key: string, e: Entry)
    requires |cache| <= MAX_CACHE && (|cache| >= MAX_CACHE ==> victim in cache)
    ensures |(if |cache| >= MAX_CACHE then cache - {victim} else cache)[key := e]| <= MAX_CACHE
  {
    var room := if |cache| >= MAX_CACHE then cache - {victim} else cache;
    assert cache.Keys - {victim} == (cache - {victim}).Keys;
    assert |room.Keys| < MAX_CACHE;
    assert room[key := e].Keys == room.Keys + {key};
    assert |room[key := e].Keys| <= |room.Keys| + 1;
  }

  lemma SetsKeeps(x: World, t: nat, victim: string)
    requires Inv(x)
    ensures Inv(Step(x, CacheSet(t, victim)))
  {
    if t in x.calls && x.calls[t].stage.Stamped? && (|x.cache| >= MAX_CACHE ==> victim in x.cache) {
      assert CallHolds(x, x.calls[t]);
      SetsLocally(x, t, victim);
      Assemble(x, Sets(x, t, victim), t);
    }
  }

  lemma SetsLocally(x: World, t: nat, victim: string)
    requires t in x.calls && x.calls[t].stage.Stamped? && CallHolds(x, x.calls[t])
    requires |x.cache| <= MAX_CACHE && (|x.cache| >= MAX_CACHE ==> victim in x.cache) && GateHolds(x)
    ensures
      var y := Sets(x, t, victim);
      && Later(x, y) && GateHolds(y) && |y.cache| <= MAX_CACHE && t in y.calls && CallHolds(y, y.calls[t])
      && (forall o :: o in y.calls && o != t ==> o in x.calls && y.calls[o] == x.calls[o])
      && (forall k :: k in y.cache ==> (k in x.cache && y.cache[k] == x.cache[k]) || EntryHolds(y, k, y.cache[k]))
  {
    var y := Sets(x, t, victim);
    var key, e := x.calls[t].key, x.calls[t].stage.e;
    EvictionBoundsCache(x.cache, victim, key, e);
    EntryKept(x, y, key, e);
    assert y.cache[key] == e && y.calls[t] == Call(key, Returned(e, e.stamp));
  }

  lemma GetsKeeps(x: World, t: nat)
    requires Inv(x)
    ensures Inv(Step(x, CacheGet(t)))
  {
    if At(x, t, Begun) {
      var k := x.calls[t].key;
      if k in x.cache && x.now < x.cache[k].expiry {
        GotoKeeps(x, t, Returned(x.cache[k], x.now));
      } else {
        GotoKeeps(x, t, Missed);
      }
    }
  }

  lemma IsAnsweredKeeps(x: World, t: nat, outcome: Outcome)
    requires Inv(x)
    ensures Inv(Step(x, Answers(t, outcome)))
  {
    if At(x, t, Asking) && Fits(x.kind, outcome) { Assemble(x, IsAnswered(x, t, outcome), t); }
  }

  lemma StepKeepsInv(x: World, e: Event)
    requires Inv(x)
    ensures Inv(Step(x, e))
  {
    match e
    case Tick(d) => TickKeeps(x, d);
    case Begin(t, key) => BeginKeeps(x, t, key);
    case CacheGet(t) => GetsKeeps(x, t);
    case Gated(t) => PassesGateKeeps(x, t);
    case _ => BackendStepKeepsInv(x, e);
  }

  lemma BackendStepKeepsInv(x: World, e: Event)
    requires Inv(x) && (e.Answers? || e.Record? || e.Stamp? || e.CacheSet?)
    ensures Inv(Step(x, e))
  {
    match e
    case Answers(t, outcome) => IsAnsweredKeeps(x, t, outcome);
    case Record(t) => RecordsKeeps(x, t);
    case Stamp(t) => StampsKeeps(x, t);
    case CacheSet(t, victim) => SetsKeeps(x, t, victim);
  }

  lemma TickKeeps(x: World, d: nat)
    requires Inv(x)
    ensures Inv(Step(x, Tick(d)))
  {
    var y := Step(x, Tick(d));
    forall t | t in y.calls ensures CallHolds(y, y.calls[t]) { CallKept(x, y, x.calls[t]); }
    Assemble(x, y, 0);
  }

  lemma BeginKeeps(x: World, t: nat, key: string)
    requires Inv(x)
    ensures Inv(Step(x, Begin(t, key)))
  {
    if t !in x.calls { Assemble(x, Step(x, Begin(t, key)), t); }
  }

  lemma {:induction false} InvAlways(x: World, events: seq<Event>)
    requires Inv(x)
    ensures Inv(Run(x, events))
    decreases |events|
  {
    if events != [] {
      StepKeepsInv(x, events[0]);
      InvAlways(Step(x, events[0]), events[1..]);
    }
  }

  // ─── Main results ─────────────────────────────────────────────────────────

  /** Every positive answer, cached or not, traces to an exchange about that very
      credential that authenticates and still does when it is served; it is served
      within one TTL of the clock reading its lifetime is counted from, which
      follows the exchange by at most `lag`. */
  lemma PositiveAnswersAreEarned(kind: Kind, ttl: nat, now: nat, events: seq<Event>, t: nat)
    requires var y := Run(Initial(kind, ttl, now), events);
             t in y.calls && y.calls[t].stage.Returned? && y.calls[t].stage.verdict.ok
    ensures
      var y := Run(Initial(kind, ttl, now), events);
      var Returned(e, at) := y.calls[t].stage;
      && e.source < |y.replies|
      && y.replies[e.source].key == y.calls[t].key && Grants(y.replies[e.source].outcome, at)
      && y.replies[e.source].at <= e.stamp <= at <= e.stamp + y.ttl && e.stamp - y.replies[e.source].at <= y.lag
  {
    InvAlways(Initial(kind, ttl, now), events);
    var y := Run(Initial(kind, ttl, now), events);
    assert CallHolds(y, y.calls[t]);
    GrantedUntilServed(y, y.calls[t]);
  }

  lemma GrantedUntilServed(x: World, c: Call)
    requires CallHolds(x, c) && c.stage.Returned? && c.stage.verdict.ok
    ensures Grants(x.replies[c.stage.verdict.source].outcome, c.stage.at)
  {
    ClassifiedAs(x.replies[c.stage.verdict.source].outcome);
  }

  /** No call took longer than `d` from its answer to that clock reading. */
  predicate StampedWithin(x: World, d: nat) {
    x.lag <= d
  }

  /** Every positive answer served rests on a yes less than `a` old. */
  ghost predicate YoungerThan(x: World, a: nat) {
    forall t: nat :: t in x.calls && x.calls[t].stage.Returned? && x.calls[t].stage.verdict.ok ==>
      x.calls[t].stage.verdict.source < |x.replies| &&
      x.calls[t].stage.at - x.replies[x.calls[t].stage.verdict.source].at < a
  }

  ghost predicate ServesYoung(kind: Kind, ttl: nat, now: nat, events: seq<Event>, d: nat, a: nat) {
    StampedWithin(Run(Initial(kind, ttl, now), events), d) ==> YoungerThan(Run(Initial(kind, ttl, now), events), a)
  }

  lemma {:induction false} ParametersStay(x: World, events: seq<Event>)
    ensures Run(x, events).ttl == x.ttl && Run(x, events).kind == x.kind
    decreases |events|
  {
    if events != [] {
      StepKeepsParameters(x, events[0]);
      ParametersStay(Step(x, events[0]), events[1..]);
    }
  }

  lemma StepKeepsParameters(x: World, e: Event)
    ensures Step(x, e).ttl == x.ttl && Step(x, e).kind == x.kind
  {
  }

  lemma PromptRunsServeYoung(kind: Kind, ttl: nat, now: nat, events: seq<Event>, d: nat)
    requires ttl > 0
    ensures ServesYoung(kind, ttl, now, events, d, ttl + d)
  {
    var y := Run(Initial(kind, ttl, now), events);
    InvAlways(Initial(kind, ttl, now), events);
    ParametersStay(Initial(kind, ttl, now), events);
    if StampedWithin(y, d) {
      forall t: nat | t in y.calls && y.calls[t].stage.Returned? && y.calls[t].stage.verdict.ok
        ensures y.calls[t].stage.verdict.source < |y.replies| &&
                y.calls[t].stage.at - y.replies[y.calls[t].stage.verdict.source].at < ttl + d
      {
        assert CallHolds(y, y.calls[t]);
      }
    }
  }

  /** A call that stalls for `d` after its yes, and a second call in the last
      second of the cached verdict. */
  function Stalls(d: nat): seq<Event> {
    [Begin(0, "k"), CacheGet(0), Gated(0), Answers(0, LdapBound(true)), Record(0), Tick(d), Stamp(0), CacheSet(0, "")]
  }

  function Revisits(ttl: nat): seq<Event>
    requires ttl > 0
  {
    [Tick(ttl - 1), Begin(1, "k"), CacheGet(1)]
  }

  function Stalled(ttl: nat, d: nat): World {
    World(Ldap, ttl, d, map["k" := Entry(true, d + ttl, 0, d)], Cleared(),
          map[0 := Call("k", Returned(Entry(true, d + ttl, 0, d), d))],
          [Reply("k", LdapBound(true), 0)], [], 0, 0, d, Some(LdapBound(true)))
  }

  lemma RunCons(x: World, e: Event, rest: seq<Event>)
    ensures Run(x, [e] + rest) == Run(Step(x, e), rest)
  {
    assert ([e] + rest)[1..] == rest;
  }

  lemma {:induction false} RunAppend(x: World, a: seq<Event>, b: seq<Event>)
    ensures Run(x, a + b) == Run(Run(x, a), b)
    decreases |a|
  {
    if a == [] {
      assert a + b == b;
    } else {
      assert (a + b)[1..] == a[1..] + b;
      RunAppend(Step(x, a[0]), a[1..], b);
    }
  }

  lemma RunFour(x: World, a: Event, b: Event, c: Event, d: Event)
    ensures Run(x, [a, b, c, d]) == Step(Step(Step(Step(x, a), b), c), d)
  {
    RunCons(x, a, [b, c, d]);
    RunCons(Step(x, a), b, [c, d]);
    RunCons(Step(Step(x, a), b), c, [d]);
    RunCons(Step(Step(Step(x, a), b), c), d, []);
    assert [a] + [b, c, d] == [a, b, c, d] && [b] + [c, d] == [b, c, d] && [c] + [d] == [c, d] && [d] + [] == [d];
  }

  lemma AfterAnswer(ttl: nat)
    ensures Run(Initial(Ldap, ttl, 0), [Begin(0, "k"), CacheGet(0), Gated(0), Answers(0, LdapBound(true))]) ==
      World(Ldap, ttl, 0, map[], Cleared(), map[0 := Call("k", Answered(0))], [Reply("k", LdapBound(true), 0)], [], 0, 0, 0, None)
  {
    RunFour(Initial(Ldap, ttl, 0), Begin(0, "k"), CacheGet(0), Gated(0), Answers(0, LdapBound(true)));
  }

  lemma AfterStall(ttl: nat, d: nat)
    ensures
      var x := World(Ldap, ttl, 0, map[], Cleared(), map[0 := Call("k", Answered(0))], [Reply("k", LdapBound(true), 0)], [], 0, 0, 0, None);
      var y := World(Ldap, ttl, d, map[], Cleared(), map[0 := Call("k", Recorded(0))], [Reply("k", LdapBound(true), 0)], [], 0, 0, 0, Some(LdapBound(true)));
      Step(Step(x, Record(0)), Tick(d)) == y && Step(Step(y, Stamp(0)), CacheSet(0, "")) == Stalled(ttl, d)
  {
  }

  lemma AfterStalls(ttl: nat, d: nat)
    ensures Run(Initial(Ldap, ttl, 0), Stalls(d)) == Stalled(ttl, d)
  {
    var first, second := [Begin(0, "k"), CacheGet(0), Gated(0), Answers(0, LdapBound(true))], [Record(0), Tick(d), Stamp(0), CacheSet(0, "")];
    assert Stalls(d) == first + second;
    RunAppend(Initial(Ldap, ttl, 0), first, second);
    AfterAnswer(ttl);
    RunFour(Run(Initial(Ldap, ttl, 0), first), Record(0), Tick(d), Stamp(0), CacheSet(0, ""));
    AfterStall(ttl, d);
  }

  lemma AfterRevisits(ttl: nat, d: nat)
    requires ttl > 0
    ensures
      var y := Run(Stalled(ttl, d), Revisits(ttl));
      && y.lag == d && y.replies == [Reply("k", LdapBound(true), 0)]
      && 1 in y.calls && y.calls[1] == Call("k", Returned(Entry(true, d + ttl, 0, d), d + ttl - 1))
  {
    var x := Stalled(ttl, d);
    RunCons(x, Tick(ttl - 1), [Begin(1, "k"), CacheGet(1)]);
    var x1 := Step(x, Tick(ttl - 1));
    RunCons(x1, Begin(1, "k"), [CacheGet(1)]);
    var x2 := Step(x1, Begin(1, "k"));
    RunCons(x2, CacheGet(1), []);
    assert Revisits(ttl) == [Tick(ttl - 1)] + [Begin(1, "k"), CacheGet(1)];
    assert [Begin(1, "k"), CacheGet(1)] == [Begin(1, "k")] + [CacheGet(1)] && [CacheGet(1)] == [CacheGet(1)] + [];
    assert x2.calls[1] == Call("k", Begun);
  }

  /** The failing run: a yes that is served `ttl + d - 1` seconds after it was given. */
  lemma StalledCallServesAnOldYes(ttl: nat, d: nat, a: nat)
    requires ttl > 0 && a < ttl + d
    ensures !ServesYoung(Ldap, ttl, 0, Stalls(d) + Revisits(ttl), d, a)
  {
    RunAppend(Initial(Ldap, ttl, 0), Stalls(d), Revisits(ttl));
    AfterStalls(ttl, d);
    AfterRevisits(ttl, d);
    var y := Run(Stalled(ttl, d), Revisits(ttl));
    assert y.calls[1].stage.at - y.replies[0].at >= a;
  }

  /** Over all runs in which no call stalls longer than `d` between its answer and
      its clock reading, every yes served is less than `a` old, if and only if `a`
      is at least the TTL plus `d`: less than one TTL only without any stall. */
  lemma PositiveAnswersAreYoungIff(ttl: nat, d: nat, a: nat)
    requires ttl > 0
    ensures (forall kind: Kind, now: nat, events: seq<Event> :: ServesYoung(kind, ttl, now, events, d, a)) <==> ttl + d <= a
  {
    if ttl + d <= a {
      forall kind: Kind, now: nat, events: seq<Event> ensures ServesYoung(kind, ttl, now, events, d, a) {
        PromptRunsServeYoung(kind, ttl, now, events, d);
      }
    } else {
      StalledCallServesAnOldYes(ttl, d, a);
    }
  }

  /** The exchanges that authenticate: the user bound and is in the required group,
      or the token is active, in time at `now`, of the required scope and audience,
      and names a subject. */
  predicate Grants(o: Outcome, now: int) {
    match o
    case LdapBound(member) => member
    case Http(status, Some(tok)) =>
      status == 200 && tok.active && tok.expOk && tok.allowed && tok.named && (tok.exp.Some? ==> now < tok.exp.value)
    case _ => false
  }

  /** The exchanges that settle the matter either way; the others are a rejection
      of the account or the request, or no answer at all. */
  predicate Settles(o: Outcome) {
    match o
    case LdapEntries(_) => true
    case LdapBindFails(code) => code == Some(49)
    case LdapBound(_) => true
    case Http(status, body) => status == 200 && body.Some?
    case NoExchange => false
  }

  lemma ClassifiedAs(o: Outcome)
    ensures Settles(o) <==> Classify(o).Yes? || Classify(o).No?
    ensures o.LdapBound? ==> (Classify(o).Yes? <==> o.member)
    ensures o.LdapEntries? || o.LdapBindFails? ==> !Classify(o).Yes?
    ensures o.Http? && o.status == 200 && o.body.Some? ==>
              (Classify(o).Yes? <==> o.body.value.active && o.body.value.expOk && o.body.value.allowed)
    ensures o.Http? && Classify(o).Yes? ==> Classify(o) == Yes(o.body.value.named, o.body.value.exp)
  {
  }

  lemma VerdictRests(x: World, key: string, e: Entry)
    requires EntryHolds(x, key, e)
    ensures RestsOn(x, key, e)
  {
    ClassifiedAs(x.replies[e.source].outcome);
  }

  /** Over every run, each verdict cached or returned rests on an exchange about that
      credential that settles the matter, and is positive exactly when the exchange
      authenticates at the moment of its stamp; it lives one TTL, a positive one no
      longer than its token.  A call denied without a verdict met
      a closed gate, which opens within a cooldown, or an exchange that settles
      nothing. */
  lemma VerdictsRestOnExchanges(kind: Kind, ttl: nat, now: nat, events: seq<Event>)
    ensures
      var y := Run(Initial(kind, ttl, now), events);
      && (forall k :: k in y.cache ==> RestsOn(y, k, y.cache[k]))
      && (forall t :: t in y.calls && y.calls[t].stage.Returned? ==> RestsOn(y, y.calls[t].key, y.calls[t].stage.verdict))
      && (forall t :: t in y.calls && y.calls[t].stage.Denied? ==> DeniedFor(y, y.calls[t].key, y.calls[t].stage.cause))
  {
    InvAlways(Initial(kind, ttl, now), events);
    var y := Run(Initial(kind, ttl, now), events);
    forall k | k in y.cache ensures RestsOn(y, k, y.cache[k]) { VerdictRests(y, k, y.cache[k]); }
    forall t | t in y.calls
      ensures y.calls[t].stage.Returned? ==> RestsOn(y, y.calls[t].key, y.calls[t].stage.verdict)
      ensures y.calls[t].stage.Denied? ==> DeniedFor(y, y.calls[t].key, y.calls[t].stage.cause)
    {
      CallRests(y, y.calls[t]);
    }
  }

  lemma CallRests(x: World, c: Call)
    requires CallHolds(x, c)
    ensures c.stage.Returned? ==> RestsOn(x, c.key, c.stage.verdict)
    ensures c.stage.Denied? ==> DeniedFor(x, c.key, c.stage.cause)
  {
    if c.stage.Returned? { VerdictRests(x, c.key, c.stage.verdict); }
    if c.stage.Denied? && c.stage.cause.NoVerdict? { ClassifiedAs(x.replies[c.stage.cause.i].outcome); }
  }

  predicate RestsOn(x: World, key: string, e: Entry) {
    && e.source < |x.replies| && x.replies[e.source].key == key
    && Settles(x.replies[e.source].outcome) && (e.ok <==> Grants(x.replies[e.source].outcome, e.stamp))
    && (!e.ok && !x.replies[e.source].outcome.Http? ==> e.expiry == e.stamp + x.ttl)
    && (e.ok && x.replies[e.source].outcome.LdapBound? ==> e.expiry == e.stamp + x.ttl)
    && (e.ok && x.replies[e.source].outcome.Http? ==> e.expiry == ShorterLife(x.ttl, x.replies[e.source].outcome.body, e.stamp))
    && (e.ok || x.replies[e.source].outcome.Http? ==> e.stamp <= e.expiry <= e.stamp + x.ttl)
  }

  /** The end of one TTL or of the token, whichever comes first. */
  function ShorterLife(ttl: nat, body: Option<Token>, now: int): int {
    if body.Some? && body.value.exp.Some? && body.value.exp.value < now + ttl then body.value.exp.value else now + ttl
  }

  predicate DeniedFor(x: World, key: string, c: Cause) {
    match c
    case GateClosed(at, until) => at < until <= at + COOLDOWN
    case NoVerdict(i) => i < |x.replies| && x.replies[i].key == key && !Settles(x.replies[i].outcome)
  }

  /** The event by which a call moves on. */
  function NextMove(c: Call, t: nat, outcome: Outcome, victim: string): Event {
    match c.stage
    case Begun => CacheGet(t)
    case Missed => Gated(t)
    case Asking => Answers(t, outcome)
    case Answered(_) => Record(t)
    case Recorded(_) => Stamp(t)
    case Stamped(_) => CacheSet(t, victim)
    case _ => Tick(0)
  }

  function MovesLeft(s: Stage): nat {
    match s
    case Begun => 6
    case Missed => 5
    case Asking => 4
    case Answered(_) => 3
    case Recorded(_) => 2
    case Stamped(_) => 1
    case _ => 0
  }

  /** A call is over after at most six moves of its own, whatever the backend says. */
  lemma CallsFinish(x: World, t: nat, outcome: Outcome, victim: string)
    requires Inv(x) && t in x.calls && !x.calls[t].stage.Denied? && !x.calls[t].stage.Returned?
    requires Fits(x.kind, outcome) && (|x.cache| >= MAX_CACHE ==> victim in x.cache)
    ensures
      var y := Step(x, NextMove(x.calls[t], t, outcome, victim));
      t in y.calls && MovesLeft(y.calls[t].stage) < MovesLeft(x.calls[t].stage)
  {
    assert CallHolds(x, x.calls[t]);
    MoveIsMade(x, t, outcome, victim);
  }

  lemma MoveIsMade(x: World, t: nat, outcome: Outcome, victim: string)
    requires t in x.calls && !x.calls[t].stage.Denied? && !x.calls[t].stage.Returned?
    requires x.calls[t].stage.Answered? || x.calls[t].stage.Recorded? ==> x.calls[t].stage.i < |x.replies|
    requires Fits(x.kind, outcome) && (|x.cache| >= MAX_CACHE ==> victim in x.cache)
    ensures
      var y := Step(x, NextMove(x.calls[t], t, outcome, victim));
      t in y.calls && MovesLeft(y.calls[t].stage) < MovesLeft(x.calls[t].stage)
  {
    match x.calls[t].stage {
      case Begun => FirstMoves(x, t);
      case Missed => FirstMoves(x, t);
      case Asking => assert IsAnswered(x, t, outcome).calls[t].stage.Answered?;
      case Answered(_) => RecordMoves(x, t);
      case Recorded(_) => assert Stamps(x, t).calls[t].stage.Stamped?;
      case Stamped(_) => assert Sets(x, t, victim).calls[t].stage.Returned?;
    }
  }

  lemma FirstMoves(x: World, t: nat)
    requires t in x.calls
    ensures x.calls[t].stage.Begun? ==> t in Gets(x, t).calls && MovesLeft(Gets(x, t).calls[t].stage) < 6
    ensures x.calls[t].stage.Missed? ==> t in PassesGate(x, t).calls && MovesLeft(PassesGate(x, t).calls[t].stage) < 5
  {
  }

  lemma RecordMoves(x: World, t: nat)
    requires t in x.calls && x.calls[t].stage.Answered? && x.calls[t].stage.i < |x.replies|
    ensures t in Records(x, t).calls && MovesLeft(Records(x, t).calls[t].stage) < 3
  {
  }

  predicate RestsOnAnswer(x: World, key: string, e: Entry) {
    e.source < |x.replies| && x.replies[e.source].key == key && (x.replies[e.source].answer.Yes? || x.replies[e.source].answer.No?)
  }

  /** An outage is never remembered: over every run, each verdict cached or
      returned, positive or negative, rests on a yes or a no the backend gave for
      that credential; nothing rests on a rejection or a failure to reach it. */
  lemma OutagesLeaveNoTrace(kind: Kind, ttl: nat, now: nat, events: seq<Event>)
    ensures
      var y := Run(Initial(kind, ttl, now), events);
      && (forall k :: k in y.cache ==> RestsOnAnswer(y, k, y.cache[k]))
      && (forall t :: t in y.calls && y.calls[t].stage.Returned? ==> RestsOnAnswer(y, y.calls[t].key, y.calls[t].stage.verdict))
  {
    InvAlways(Initial(kind, ttl, now), events);
    var y := Run(Initial(kind, ttl, now), events);
    forall t | t in y.calls && y.calls[t].stage.Returned? ensures RestsOnAnswer(y, y.calls[t].key, y.calls[t].stage.verdict) {
      assert CallHolds(y, y.calls[t]);
    }
  }

  /** Any answer reopens: over every run the gate is down if and only if the outcome
      recorded last was a failure to reach the backend.  So a wrong password, a
      locked account or an introspection 4xx leaves it open; 401, 408, 429 and 5xx,
      a garbled body, a busy or unavailable directory leave it down. */
  lemma AnyAnswerReopens(kind: Kind, ttl: nat, now: nat, events: seq<Event>, t: int)
    ensures
      var y := Run(Initial(kind, ttl, now), events);
      && (y.gate.down <==> y.recorded.Some? && Classify(y.recorded.value).Unreachable?)
      && (y.recorded.Some? && !Classify(y.recorded.value).Unreachable? ==> Allowed(y.gate, t).0)
      && (y.recorded.Some? && y.recorded.value.LdapBindFails? && y.recorded.value.code.Some? ==>
            (y.gate.down <==> y.recorded.value.code.value in {51, 52} || 200 <= y.recorded.value.code.value <= 206))
      && (y.recorded.Some? && y.recorded.value.Http? && y.recorded.value.status != 200 ==>
            (y.gate.down <==> !(400 <= y.recorded.value.status < 500) || y.recorded.value.status in {401, 408, 429}))
  {
    InvAlways(Initial(kind, ttl, now), events);
  }

  /** Probes while down are a cooldown apart, from each other and from the outage
      that armed the gate; yet a probe is always granted within one cooldown. */
  lemma ProbesAreSpaced(kind: Kind, ttl: nat, now: nat, events: seq<Event>)
    ensures
      var y := Run(Initial(kind, ttl, now), events);
      && (forall i, j :: 0 <= i < j < |y.probes| && y.probes[i].outage == y.probes[j].outage ==>
            y.probes[i].at + COOLDOWN <= y.probes[j].at)
      && (forall i :: 0 <= i < |y.probes| && y.gate.down && y.probes[i].outage == y.outage ==> y.armedAt + COOLDOWN <= y.probes[i].at)
      && Allowed(y.gate, y.now + COOLDOWN).0
  {
    InvAlways(Initial(kind, ttl, now), events);
  }

  // ─── When a denial sticks ─────────────────────────────────────────────────

  /** Call `t` holds a yes for `k` that it has not cached yet. */
  predicate Holds(x: World, t: nat, k: string) {
    t in x.calls && x.calls[t].key == k &&
    match x.calls[t].stage
    case Answered(i) => i < |x.replies| && x.replies[i].answer.Yes?
    case Recorded(i) => i < |x.replies| && x.replies[i].answer.Yes?
    case Stamped(e) => e.ok
    case Returned(e, _) => e.ok
    case _ => false
  }

  /** ... and it would still count if cached now. */
  predicate Pending(x: World, t: nat, k: string) {
    Holds(x, t, k) &&
    match x.calls[t].stage
    case Answered(i) => Verdict(x.kind, x.ttl, x.replies[i].answer, i, x.now).ok
    case Recorded(i) => Verdict(x.kind, x.ttl, x.replies[i].answer, i, x.now).ok
    case Stamped(e) => x.now < e.expiry
    case _ => false
  }

  predicate NotCached(x: World, k: string) {
    k in x.cache ==> !x.cache[k].ok || x.cache[k].expiry <= x.now
  }

  /** The backend says yes to `k`. */
  predicate SaysYes(x: World, e: Event, k: string) {
    e.Answers? && Fits(x.kind, e.outcome) && Classify(e.outcome).Yes? && At(x, e.t, Asking) && x.calls[e.t].key == k
  }

  predicate NeverYes(x: World, events: seq<Event>, k: string)
    decreases |events|
  {
    events == [] || (!SaysYes(x, events[0], k) && NeverYes(Step(x, events[0]), events[1..], k))
  }

  /** Nothing can bring a positive verdict for `k` to a call not in `known`. */
  ghost predicate Quiet(x: World, k: string, known: set<nat>) {
    && NotCached(x, k)
    && (forall t: nat :: !Pending(x, t, k))
    && (forall t: nat :: t !in known ==> !Holds(x, t, k))
  }

  lemma StepKeepsQuiet(x: World, e: Event, k: string, known: set<nat>)
    requires Inv(x) && Quiet(x, k, known) && !SaysYes(x, e, k)
    ensures Quiet(Step(x, e), k, known)
  {
    var y := Step(x, e);
    forall t: nat ensures !Pending(y, t, k) && (t !in known ==> !Holds(y, t, k)) {
      assert !Pending(x, t, k) && (t !in known ==> !Holds(x, t, k));
      if t in x.calls {
        assert CallHolds(x, x.calls[t]);
        CallStaysQuiet(x, e, k, t);
      }
    }
    CacheStaysQuiet(x, e, k);
  }

  lemma CallStaysQuiet(x: World, e: Event, k: string, t: nat)
    requires t in x.calls && CallHolds(x, x.calls[t]) && NotCached(x, k) && !SaysYes(x, e, k)
    requires !Pending(x, t, k)
    ensures !Pending(Step(x, e), t, k)
    ensures !Holds(x, t, k) ==> !Holds(Step(x, e), t, k)
  {
    if !e.Tick? && e.t == t {
      OwnStepStaysQuiet(x, e, k);
    } else {
      var y := Step(x, e);
      assert t in y.calls && y.calls[t] == x.calls[t] && Later(x, y);
      OthersStepStaysQuiet(x, y, k, t);
    }
  }

  lemma OthersStepStaysQuiet(x: World, y: World, k: string, t: nat)
    requires t in x.calls && CallHolds(x, x.calls[t]) && !Pending(x, t, k)
    requires t in y.calls && y.calls[t] == x.calls[t] && Later(x, y)
    ensures !Pending(y, t, k)
    ensures !Holds(x, t, k) ==> !Holds(y, t, k)
  {
    match x.calls[t].stage {
      case Answered(i) => assert y.replies[i] == y.replies[..|x.replies|][i] == x.replies[i];
      case Recorded(i) => assert y.replies[i] == y.replies[..|x.replies|][i] == x.replies[i];
      case _ =>
    }
  }

  lemma OwnStepStaysQuiet(x: World, e: Event, k: string)
    requires !e.Tick? && e.t in x.calls && CallHolds(x, x.calls[e.t]) && NotCached(x, k) && !SaysYes(x, e, k)
    requires !Pending(x, e.t, k)
    ensures !Pending(Step(x, e), e.t, k)
    ensures !Holds(x, e.t, k) ==> !Holds(Step(x, e), e.t, k)
  {
    match x.calls[e.t].stage {
      case Begun => assert e.CacheGet? || Step(x, e) == x;
      case Missed => assert e.Gated? || Step(x, e) == x;
      case Asking => assert e.Answers? || Step(x, e) == x;
      case Answered(_) => assert e.Record? || Step(x, e) == x;
      case Recorded(_) => assert e.Stamp? || Step(x, e) == x;
      case Stamped(_) => assert e.CacheSet? || Step(x, e) == x;
      case _ => assert Step(x, e) == x;
    }
  }

  lemma CacheStaysQuiet(x: World, e: Event, k: string)
    requires NotCached(x, k)
    requires e.CacheSet? ==> !Pending(x, e.t, k)
    ensures NotCached(Step(x, e), k)
  {
  }

  lemma {:induction false} QuietRunsDeny(x: World, events: seq<Event>, k: string, known: set<nat>)
    requires Inv(x) && Quiet(x, k, known) && NeverYes(x, events, k)
    ensures Quiet(Run(x, events), k, known)
    decreases |events|
  {
    if events != [] {
      StepKeepsInv(x, events[0]);
      StepKeepsQuiet(x, events[0], k, known);
      QuietRunsDeny(Step(x, events[0]), events[1..], k, known);
    }
  }

  /** No call that starts after `x` gets a yes for `k` without a new yes from the backend. */
  ghost predicate Denies(x: World, events: seq<Event>, k: string) {
    NeverYes(x, events, k) ==>
      forall t: nat :: t in Run(x, events).calls && t !in x.calls && Run(x, events).calls[t].key == k ==>
        !(Run(x, events).calls[t].stage.Returned? && Run(x, events).calls[t].stage.verdict.ok)
  }

  function LateWrite(t: nat, victim: string, n: nat, k: string): seq<Event> {
    [Record(t), Stamp(t), CacheSet(t, victim), Begin(n, k), CacheGet(n)]
  }

  /** A pending yes reaches the cache, and the next call. */
  lemma PendingYesIsServed(x: World, t: nat, k: string, victim: string, n: nat)
    requires Inv(x) && Pending(x, t, k) && x.ttl > 0 && n !in x.calls
    requires |x.cache| >= MAX_CACHE ==> victim in x.cache
    ensures !Denies(x, LateWrite(t, victim, n, k), k)
  {
    var y := Cached(x, t, k, victim);
    var z := Step(Step(y, Begin(n, k)), CacheGet(n));
    CachedVerdictIsServed(y, n, k);
    UnfoldLateWrite(x, t, victim, n, k);
  }

  /** A live verdict, positive or negative, answers the next call by itself: neither
      the gate nor the backend is asked. */
  lemma CachedVerdictIsServed(y: World, n: nat, k: string)
    requires n !in y.calls && k in y.cache && y.now < y.cache[k].expiry
    ensures
      var z := Step(Step(y, Begin(n, k)), CacheGet(n));
      z == y.(calls := z.calls) && n in z.calls && z.calls[n] == Call(k, Returned(y.cache[k], y.now))
  {
    var y1 := Step(y, Begin(n, k));
    assert y1.calls[n] == Call(k, Begun);
  }

  lemma UnfoldLateWrite(x: World, t: nat, victim: string, n: nat, k: string)
    ensures
      var e := LateWrite(t, victim, n, k);
      && NeverYes(x, e, k)
      && Run(x, e) == Step(Step(Step(Step(Step(x, Record(t)), Stamp(t)), CacheSet(t, victim)), Begin(n, k)), CacheGet(n))
  {
    var e := LateWrite(t, victim, n, k);
    var x1 := Step(x, Record(t));
    var x2 := Step(x1, Stamp(t));
    var x3 := Step(x2, CacheSet(t, victim));
    var x4 := Step(x3, Begin(n, k));
    Unfold(x, e[0], e[1..], k);
    Unfold(x1, e[1], e[2..], k);
    Unfold(x2, e[2], e[3..], k);
    Unfold(x3, e[3], e[4..], k);
    Unfold(x4, e[4], [], k);
    assert e == [e[0]] + e[1..] && e[1..] == [e[1]] + e[2..] && e[2..] == [e[2]] + e[3..] && e[3..] == [e[3]] + e[4..] && e[4..] == [e[4]] + [];
  }

  lemma Unfold(x: World, e: Event, rest: seq<Event>, k: string)
    ensures Run(x, [e] + rest) == Run(Step(x, e), rest)
    ensures NeverYes(x, [e] + rest, k) <==> !SaysYes(x, e, k) && NeverYes(Step(x, e), rest, k)
  {
    assert ([e] + rest)[1..] == rest;
  }

  lemma Cached(x: World, t: nat, k: string, victim: string) returns (y: World)
    requires Inv(x) && Pending(x, t, k) && x.ttl > 0
    requires |x.cache| >= MAX_CACHE ==> victim in x.cache
    ensures y == Step(Step(Step(x, Record(t)), Stamp(t)), CacheSet(t, victim))
    ensures k in y.cache && y.cache[k].ok && y.now < y.cache[k].expiry && y.calls.Keys == x.calls.Keys
  {
    assert CallHolds(x, x.calls[t]);
    var x1 := Step(x, Record(t));
    assert x1.calls[t].stage.Recorded? || x1.calls[t].stage.Stamped?;
    var x2 := Step(x1, Stamp(t));
    assert x2.calls[t].stage.Stamped? && x2.calls[t].stage.e.ok && x2.now < x2.calls[t].stage.e.expiry;
    y := Step(x2, CacheSet(t, victim));
  }

  /** Once no live yes is cached for a credential, later calls stay denied until
      the backend says yes again, if and only if no call in progress still holds
      an earlier yes it has yet to cache. */
  lemma DenialSticksIffNothingPending(x: World, k: string)
    requires Inv(x) && x.ttl > 0 && NotCached(x, k)
    ensures (forall events: seq<Event> :: Denies(x, events, k)) <==> forall t: nat :: !Pending(x, t, k)
  {
    if forall t: nat :: !Pending(x, t, k) {
      forall events: seq<Event> ensures Denies(x, events, k) {
        if NeverYes(x, events, k) {
          QuietRunsDeny(x, events, k, x.calls.Keys);
          var y := Run(x, events);
          forall t: nat | t in y.calls && t !in x.calls && y.calls[t].key == k
            ensures !(y.calls[t].stage.Returned? && y.calls[t].stage.verdict.ok)
          {
            assert !Holds(y, t, k);
          }
        }
      }
    } else {
      var t: nat :| Pending(x, t, k);
      var victim := SomeKey(x.cache);
      var n := UnusedId(x.calls.Keys);
      PendingYesIsServed(x, t, k, victim, n);
    }
  }

  lemma SomeKey(cache: map<string, Entry>) returns (victim: string)
    ensures |cache| >= MAX_CACHE ==> victim in cache
  {
    if |cache| >= MAX_CACHE {
      assert |cache.Keys| > 0;
      victim :| victim in cache;
    } else {
      victim := "";
    }
  }
}
