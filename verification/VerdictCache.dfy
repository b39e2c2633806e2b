/** The content-hash verdict cache of the CDR stage (cdr_proxy.go:95-245) against
    concurrent policy changes.

    Every completed policy change raises the epoch.  A request evaluates the
    policy, then reads the epoch, then looks the cache up; a miss calls Sluice and
    files the verdict under that epoch.  `decided` is history: the epoch whose
    rules really decided, and `who` the one they decided for: all that evaluation
    looks at in a request.  Expiry and eviction are one event.
 */
module VerdictCache {
  import opened Wrappers

  datatype Entry = Entry(tag: nat, decided: nat, who: string)

  datatype Stage =
    | Begun
    | Evaluated(decided: nat)
    | Tagged(decided: nat, tag: nat)
    | Calling(decided: nat, tag: nat)
    | Served(e: Entry, tag: nat)
    | Answered

  datatype Request = Request(hash: string, who: string, stage: Stage)

  datatype World = World(epoch: nat, cache: map<string, Entry>, requests: map<nat, Request>)

  datatype Event =
    | ChangePolicy
    | Begin(t: nat, hash: string, who: string)
    | Evaluate(t: nat)
    | ReadEpoch(t: nat)
    | Lookup(t: nat)
    | Put(t: nat, evicted: set<string>)
    | Evict(hash: string)

  function Goto(x: World, t: nat, stage: Stage): World
    requires t in x.requests
  {
    x.(requests := x.requests[t := x.requests[t].(stage := stage)])
  }

  function Looks(x: World, t: nat): World {
    if t !in x.requests || !x.requests[t].stage.Tagged? then x
    else
      var Request(hash, _, Tagged(decided, tag)) := x.requests[t];
      if hash !in x.cache then Goto(x, t, Calling(decided, tag))
      else if x.cache[hash].tag != tag then Goto(x.(cache := x.cache - {hash}), t, Calling(decided, tag))
      else Goto(x, t, Served(x.cache[hash], tag))
  }

  function Puts(x: World, t: nat, evicted: set<string>): World {
    if t !in x.requests || !x.requests[t].stage.Calling? then x
    else
      var Request(hash, who, Calling(decided, tag)) := x.requests[t];
      Goto(x.(cache := (x.cache - evicted)[hash := Entry(tag, decided, who)]), t, Answered)
  }

  function Step(x: World, e: Event): World {
    match e
    case ChangePolicy => x.(epoch := x.epoch + 1)
    case Begin(t, hash, who) => if t in x.requests then x else x.(requests := x.requests[t := Request(hash, who, Begun)])
    case Evaluate(t) => if t in x.requests && x.requests[t].stage.Begun? then Goto(x, t, Evaluated(x.epoch)) else x
    case ReadEpoch(t) =>
      if t in x.requests && x.requests[t].stage.Evaluated? then Goto(x, t, Tagged(x.requests[t].stage.decided, x.epoch)) else x
    case Lookup(t) => Looks(x, t)
    case Put(t, evicted) => Puts(x, t, evicted)
    case Evict(hash) => x.(cache := x.cache - {hash})
  }

  function Run(x: World, events: seq<Event>): World
    decreases |events|
  {
    if events == [] then x else Run(Step(x, events[0]), events[1..])
  }

  // ─── What every run keeps ─────────────────────────────────────────────────

  predicate StageHolds(x: World, s: Stage) {
    match s
    case Evaluated(decided) => decided <= x.epoch
    case Tagged(decided, tag) => decided <= tag <= x.epoch
    case Calling(decided, tag) => decided <= tag <= x.epoch
    case Served(e, tag) => e.tag == tag && e.decided <= tag <= x.epoch
    case _ => true
  }

  ghost predicate Inv(x: World) {
    && (forall h :: h in x.cache ==> x.cache[h].decided <= x.cache[h].tag <= x.epoch)
    && (forall t :: t in x.requests ==> StageHolds(x, x.requests[t].stage))
  }

  lemma StepKeepsInv(x: World, e: Event)
    requires Inv(x)
    ensures Inv(Step(x, e))
  {
    var y := Step(x, e);
    forall t | t in y.requests ensures StageHolds(y, y.requests[t].stage) {
      assert t in x.requests ==> StageHolds(x, x.requests[t].stage);
    }
  }

  lemma {:induction false} InvAlways(x: World, events: seq<Event>)
    requires Inv(x)
    ensures Inv(Run(x, events))
    decreases |events|
  {
    if events != [] {
      StepKeepsInv(x, events[0]);
      InvAlways(Step(x, events[0]), events[1..]);
    }
  }

  /** A verdict filed under one epoch is never served to a request that read
      another, and no verdict was decided by rules newer than its tag. */
  lemma NeverAnEarlierEpoch(events: seq<Event>, t: nat)
    requires var y := Run(World(0, map[], map[]), events); t in y.requests && y.requests[t].stage.Served?
    ensures var Served(e, tag) := Run(World(0, map[], map[]), events).requests[t].stage; e.tag == tag && e.decided <= tag
  {
    InvAlways(World(0, map[], map[]), events);
    var y := Run(World(0, map[], map[]), events);
    assert StageHolds(y, y.requests[t].stage);
  }

  /** A completed policy change invalidates the whole cache at once: whatever was
      filed before, the next request for it asks Sluice again. */
  lemma ChangeInvalidatesAll(x: World, n: nat, hash: string, who: string)
    requires Inv(x) && n !in x.requests
    ensures
      var y := Run(Step(x, ChangePolicy), Asks(n, hash, who));
      n in y.requests && y.requests[n].stage == Calling(x.epoch + 1, x.epoch + 1)
  {
    var x1 := Step(x, ChangePolicy);
    RunFour(x1, Begin(n, hash, who), Evaluate(n), ReadEpoch(n), Lookup(n));
    assert hash in x.cache ==> x.cache[hash].tag <= x.epoch;
  }

  /** A lookup that meets a verdict of another epoch takes it out of the cache. */
  lemma StaleVerdictIsDropped(x: World, t: nat)
    requires t in x.requests && x.requests[t].stage.Tagged?
    requires var h := x.requests[t].hash; h in x.cache && x.cache[h].tag != x.requests[t].stage.tag
    ensures Step(x, Lookup(t)).cache == x.cache - {x.requests[t].hash}
  {
  }

  // ─── When a served verdict is the current policy's ────────────────────────

  /** The policy changed after this request evaluated it, and the request has not
      read the epoch yet or has read the later one. */
  predicate Overtaken(x: World, t: nat) {
    t in x.requests &&
    match x.requests[t].stage
    case Evaluated(decided) => decided < x.epoch
    case Tagged(decided, tag) => decided < tag == x.epoch
    case Calling(decided, tag) => decided < tag == x.epoch
    case _ => false
  }

  /** Every cached verdict of the current epoch was decided by its rules. */
  ghost predicate CacheCurrent(x: World) {
    forall h :: h in x.cache && x.cache[h].tag == x.epoch ==> x.cache[h].decided == x.epoch
  }

  predicate NoChange(events: seq<Event>) {
    forall i :: 0 <= i < |events| ==> !events[i].ChangePolicy?
  }

  /** Requests that start after `x` are only served verdicts of the current rules. */
  ghost predicate ServesCurrent(x: World, events: seq<Event>) {
    NoChange(events) ==>
      forall t: nat :: t in Run(x, events).requests && t !in x.requests && Run(x, events).requests[t].stage.Served? ==>
        Run(x, events).requests[t].stage.e.decided == x.epoch
  }

  ghost predicate Quiet(x: World, known: set<nat>) {
    && Inv(x) && CacheCurrent(x)
    && (forall t: nat :: !Overtaken(x, t))
    && (forall t: nat :: t in x.requests && t !in known ==> NewIsCurrent(x, x.requests[t].stage))
  }

  predicate NewIsCurrent(x: World, s: Stage) {
    match s
    case Evaluated(decided) => decided == x.epoch
    case Tagged(decided, tag) => tag == x.epoch
    case Calling(decided, tag) => tag == x.epoch
    case Served(e, tag) => e.decided == x.epoch
    case _ => true
  }

  lemma StepKeepsQuiet(x: World, e: Event, known: set<nat>)
    requires Quiet(x, known) && !e.ChangePolicy?
    ensures Quiet(Step(x, e), known) && Step(x, e).epoch == x.epoch
  {
    StepKeepsInv(x, e);
    var y := Step(x, e);
    forall t: nat ensures !Overtaken(y, t) && (t in y.requests && t !in known ==> NewIsCurrent(y, y.requests[t].stage)) {
      assert !Overtaken(x, t) && (t in x.requests ==> StageHolds(x, x.requests[t].stage));
      assert t in x.requests && t !in known ==> NewIsCurrent(x, x.requests[t].stage);
      RequestStaysQuiet(x, e, t);
    }
    if e.Put? { assert !Overtaken(x, e.t); }
  }

  lemma RequestStaysQuiet(x: World, e: Event, t: nat)
    requires CacheCurrent(x) && !e.ChangePolicy? && !Overtaken(x, t) && (t in x.requests ==> StageHolds(x, x.requests[t].stage))
    ensures !Overtaken(Step(x, e), t)
    ensures t !in x.requests || NewIsCurrent(x, x.requests[t].stage) ==>
              t !in Step(x, e).requests || NewIsCurrent(Step(x, e), Step(x, e).requests[t].stage)
  {
  }

  lemma {:induction false} QuietRuns(x: World, events: seq<Event>, known: set<nat>)
    requires Quiet(x, known) && NoChange(events)
    ensures Quiet(Run(x, events), known) && Run(x, events).epoch == x.epoch
    decreases |events|
  {
    if events != [] {
      assert !events[0].ChangePolicy?;
      StepKeepsQuiet(x, events[0], known);
      QuietRuns(Step(x, events[0]), events[1..], known);
    }
  }

  /** The overtaken request files its verdict; a new one of the same content is served it. */
  function StaleFile(t: nat, hash: string): seq<Event> {
    [Evict(hash), ReadEpoch(t), Lookup(t), Put(t, {})]
  }

  function Asks(n: nat, hash: string, who: string): seq<Event> {
    [Begin(n, hash, who), Evaluate(n), ReadEpoch(n), Lookup(n)]
  }

  lemma RunFour(x: World, a: Event, b: Event, c: Event, d: Event)
    ensures Run(x, [a, b, c, d]) == Step(Step(Step(Step(x, a), b), c), d)
  {
    var e := [a, b, c, d];
    var x1, x2, x3 := Step(x, a), Step(Step(x, a), b), Step(Step(Step(x, a), b), c);
    assert e[1..] == [b, c, d] && e[1..][1..] == [c, d] && [c, d][1..] == [d] && [d][1..] == [];
    assert Run(x1, [b, c, d]) == Run(x2, [c, d]) by { assert [b, c, d][1..] == [c, d]; }
    assert Run(x2, [c, d]) == Run(x3, [d]);
    assert Run(x3, [d]) == Run(Step(x3, d), []);
  }

  lemma {:induction false} RunAppend(x: World, a: seq<Event>, b: seq<Event>)
    ensures Run(x, a + b) == Run(Run(x, a), b)
    decreases |a|
  {
    if a == [] {
      assert a + b == b;
    } else {
      assert (a + b)[1..] == a[1..] + b;
      RunAppend(Step(x, a[0]), a[1..], b);
    }
  }

  /** A request in progress whose verdict will be filed under the present epoch, if
      the policy rests. */
  predicate Pending(x: World, t: nat) {
    t in x.requests &&
    match x.requests[t].stage
    case Evaluated(_) => true
    case Tagged(_, tag) => tag == x.epoch
    case Calling(_, tag) => tag == x.epoch
    case _ => false
  }

  function DecidedAt(s: Stage): nat {
    match s
    case Evaluated(decided) => decided
    case Tagged(decided, _) => decided
    case Calling(decided, _) => decided
    case _ => 0
  }

  lemma PendingVerdictIsFiled(x: World, t: nat)
    requires Pending(x, t)
    ensures
      var r := x.requests[t];
      var y := Run(x, StaleFile(t, r.hash));
      && y.epoch == x.epoch && r.hash in y.cache && y.cache[r.hash] == Entry(x.epoch, DecidedAt(r.stage), r.who)
      && y.requests.Keys == x.requests.Keys
  {
    var hash := x.requests[t].hash;
    RunFour(x, Evict(hash), ReadEpoch(t), Lookup(t), Put(t, {}));
    var x1 := Step(x, Evict(hash));
    var x2 := Step(x1, ReadEpoch(t));
    assert x2.requests[t].stage.Tagged? || x2.requests[t].stage.Calling?;
    var x3 := Step(x2, Lookup(t));
    assert x3.requests[t].stage == Calling(DecidedAt(x.requests[t].stage), x.epoch);
  }

  lemma FiledVerdictIsServed(y: World, n: nat, hash: string, who: string)
    requires n !in y.requests && hash in y.cache && y.cache[hash].tag == y.epoch
    ensures
      var z := Run(y, Asks(n, hash, who));
      n in z.requests && z.requests[n] == Request(hash, who, Served(y.cache[hash], y.epoch))
  {
    RunFour(y, Begin(n, hash, who), Evaluate(n), ReadEpoch(n), Lookup(n));
  }

  lemma OvertakenRequestPoisons(x: World, t: nat, n: nat)
    requires Inv(x) && Overtaken(x, t) && n !in x.requests
    ensures !ServesCurrent(x, StaleFile(t, x.requests[t].hash) + Asks(n, x.requests[t].hash, ""))
  {
    var hash := x.requests[t].hash;
    PendingVerdictIsFiled(x, t);
    FiledVerdictIsServed(Run(x, StaleFile(t, hash)), n, hash, "");
    RunAppend(x, StaleFile(t, hash), Asks(n, hash, ""));
    assert NoChange(StaleFile(t, hash) + Asks(n, hash, ""));
  }

  /** While the policy rests, new requests are only served verdicts its rules
      decided, if and only if no request in progress evaluated an earlier policy
      and has read, or will read, the present epoch for its tag. */
  lemma ServedVerdictsAreCurrentIff(x: World)
    requires Inv(x) && CacheCurrent(x)
    ensures (forall events: seq<Event> :: ServesCurrent(x, events)) <==> forall t: nat :: !Overtaken(x, t)
  {
    if forall t: nat :: !Overtaken(x, t) {
      forall events: seq<Event> ensures ServesCurrent(x, events) {
        if NoChange(events) {
          assert Quiet(x, x.requests.Keys);
          QuietRuns(x, events, x.requests.Keys);
          var y := Run(x, events);
          forall t: nat | t in y.requests && t !in x.requests && y.requests[t].stage.Served?
            ensures y.requests[t].stage.e.decided == x.epoch
          {
            assert NewIsCurrent(y, y.requests[t].stage);
          }
        }
      }
    } else {
      var t: nat :| Overtaken(x, t);
      var n := UnusedId(x.requests.Keys);
      OvertakenRequestPoisons(x, t, n);
    }
  }

  // ─── When a served verdict is the requester's own ─────────────────────────

  /** The profile and mode the rules of an epoch decide for a requester. */
  type Decide = (nat, string) -> string

  /** New requests are only served verdicts reached under their own profile. */
  ghost predicate ServesOwn(x: World, decide: Decide, events: seq<Event>) {
    NoChange(events) ==>
      forall t: nat :: t in Run(x, events).requests && t !in x.requests && Run(x, events).requests[t].stage.Served? ==>
        var r := Run(x, events).requests[t];
        decide(r.stage.e.decided, r.stage.e.who) == decide(x.epoch, r.who)
  }

  /** The present rules decide `p` for everyone, and so did the rules behind every
      verdict that is, or will be, filed under the present epoch. */
  ghost predicate AllDecide(x: World, decide: Decide, p: string) {
    && (forall who :: decide(x.epoch, who) == p)
    && (forall h :: h in x.cache && x.cache[h].tag == x.epoch ==> decide(x.cache[h].decided, x.cache[h].who) == p)
    && (forall t: nat :: Pending(x, t) ==> decide(DecidedAt(x.requests[t].stage), x.requests[t].who) == p)
  }

  /** A request that started under the present epoch. */
  predicate RecentDecides(x: World, decide: Decide, p: string, s: Stage) {
    match s
    case Tagged(_, tag) => tag == x.epoch
    case Calling(_, tag) => tag == x.epoch
    case Served(e, _) => decide(e.decided, e.who) == p
    case _ => true
  }

  ghost predicate Uniform(x: World, decide: Decide, p: string, known: set<nat>) {
    && AllDecide(x, decide, p)
    && (forall t: nat :: t in x.requests && t !in known ==> RecentDecides(x, decide, p, x.requests[t].stage))
  }

  lemma RequestStaysUniform(x: World, e: Event, decide: Decide, p: string, t: nat)
    requires !e.ChangePolicy? && (forall who :: decide(x.epoch, who) == p)
    requires forall h :: h in x.cache && x.cache[h].tag == x.epoch ==> decide(x.cache[h].decided, x.cache[h].who) == p
    requires Pending(x, t) ==> decide(DecidedAt(x.requests[t].stage), x.requests[t].who) == p
    ensures Pending(Step(x, e), t) ==> decide(DecidedAt(Step(x, e).requests[t].stage), Step(x, e).requests[t].who) == p
    ensures t !in x.requests || RecentDecides(x, decide, p, x.requests[t].stage) ==>
              t !in Step(x, e).requests || RecentDecides(Step(x, e), decide, p, Step(x, e).requests[t].stage)
  {
  }

  lemma CacheStaysUniform(x: World, e: Event, decide: Decide, p: string)
    requires AllDecide(x, decide, p) && !e.ChangePolicy?
    ensures forall h :: h in Step(x, e).cache && Step(x, e).cache[h].tag == x.epoch ==>
                          decide(Step(x, e).cache[h].decided, Step(x, e).cache[h].who) == p
    ensures Step(x, e).epoch == x.epoch
  {
    if e.Put? { assert Pending(x, e.t) ==> decide(DecidedAt(x.requests[e.t].stage), x.requests[e.t].who) == p; }
  }

  lemma StepKeepsUniform(x: World, e: Event, decide: Decide, p: string, known: set<nat>)
    requires Uniform(x, decide, p, known) && !e.ChangePolicy?
    ensures Uniform(Step(x, e), decide, p, known) && Step(x, e).epoch == x.epoch
  {
    CacheStaysUniform(x, e, decide, p);
    var y := Step(x, e);
    forall t: nat
      ensures Pending(y, t) ==> decide(DecidedAt(y.requests[t].stage), y.requests[t].who) == p
      ensures t in y.requests && t !in known ==> RecentDecides(y, decide, p, y.requests[t].stage)
    {
      RequestStaysUniform(x, e, decide, p, t);
    }
  }

  lemma {:induction false} UniformRuns(x: World, events: seq<Event>, decide: Decide, p: string, known: set<nat>)
    requires Uniform(x, decide, p, known) && NoChange(events)
    ensures Uniform(Run(x, events), decide, p, known) && Run(x, events).epoch == x.epoch
    decreases |events|
  {
    if events != [] {
      assert !events[0].ChangePolicy?;
      StepKeepsUniform(x, events[0], decide, p, known);
      UniformRuns(Step(x, events[0]), events[1..], decide, p, known);
    }
  }

  /** After `a`, a verdict reached under another profile is in the cache; `who` asks. */
  lemma ForeignVerdictIsServed(x: World, a: seq<Event>, n: nat, hash: string, who: string, decide: Decide)
    requires NoChange(a) && n !in x.requests
    requires
      var y := Run(x, a);
      && y.epoch == x.epoch && n !in y.requests && hash in y.cache && y.cache[hash].tag == y.epoch
      && decide(y.cache[hash].decided, y.cache[hash].who) != decide(x.epoch, who)
    ensures !ServesOwn(x, decide, a + Asks(n, hash, who))
  {
    var y := Run(x, a);
    FiledVerdictIsServed(y, n, hash, who);
    RunAppend(x, a, Asks(n, hash, who));
    assert NoChange(a + Asks(n, hash, who));
    var z := Run(x, a + Asks(n, hash, who));
    assert n in z.requests && z.requests[n].stage.Served?;
  }

  /** A new request of `other` is evaluated; then its verdict is filed as any other. */
  lemma TwoProfilesMix(x: World, n: nat, m: nat, other: string, who: string, decide: Decide)
    requires n !in x.requests && m !in x.requests && n != m
    requires decide(x.epoch, other) != decide(x.epoch, who)
    ensures exists events :: !ServesOwn(x, decide, events)
  {
    var start := [Begin(m, "", other), Evaluate(m)];
    var x1 := Step(x, Begin(m, "", other));
    var x2 := Step(x1, Evaluate(m));
    assert start[1..] == [Evaluate(m)] && [Evaluate(m)][1..] == [];
    assert Run(x, start) == Run(x1, [Evaluate(m)]) == Run(x2, []) == x2;
    PendingVerdictIsFiled(x2, m);
    RunAppend(x, start, StaleFile(m, ""));
    assert NoChange(start + StaleFile(m, ""));
    ForeignVerdictIsServed(x, start + StaleFile(m, ""), n, "", who, decide);
  }

  /** The cache is keyed by content alone.  While the policy rests, new requests are
      only served verdicts reached under their own profile, if and only if some one
      profile is what the present rules decide for everyone and what was decided
      for every verdict filed, or about to be filed, under the present epoch. */
  lemma ServedVerdictsAreOwnIff(x: World, decide: Decide)
    ensures (forall events: seq<Event> :: ServesOwn(x, decide, events)) <==> exists p :: AllDecide(x, decide, p)
  {
    if p :| AllDecide(x, decide, p) {
      forall events: seq<Event> ensures ServesOwn(x, decide, events) {
        if NoChange(events) {
          assert Uniform(x, decide, p, x.requests.Keys);
          UniformRuns(x, events, decide, p, x.requests.Keys);
          var y := Run(x, events);
          forall t: nat | t in y.requests && t !in x.requests && y.requests[t].stage.Served?
            ensures decide(y.requests[t].stage.e.decided, y.requests[t].stage.e.who) == decide(x.epoch, y.requests[t].who)
          {
            assert RecentDecides(y, decide, p, y.requests[t].stage);
          }
        }
      }
    } else {
      SomeoneIsServedAnothers(x, decide);
    }
  }

  lemma SomeoneIsServedAnothers(x: World, decide: Decide)
    requires !AllDecide(x, decide, decide(x.epoch, ""))
    ensures exists events :: !ServesOwn(x, decide, events)
  {
    var n := UnusedId(x.requests.Keys);
    if who :| decide(x.epoch, who) != decide(x.epoch, "") {
      var m := UnusedId(x.requests.Keys + {n});
      TwoProfilesMix(x, n, m, who, "", decide);
    } else if h :| h in x.cache && x.cache[h].tag == x.epoch && decide(x.cache[h].decided, x.cache[h].who) != decide(x.epoch, "") {
      ForeignVerdictIsServed(x, [], n, h, "", decide);
    } else {
      var t: nat :| Pending(x, t) && decide(DecidedAt(x.requests[t].stage), x.requests[t].who) != decide(x.epoch, "");
      var hash := x.requests[t].hash;
      PendingVerdictIsFiled(x, t);
      ForeignVerdictIsServed(x, StaleFile(t, hash), n, hash, "", decide);
    }
  }
}
