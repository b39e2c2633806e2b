/** The JWKS cache of an OIDC provider under concurrent lookups
    (auth_oidc_flow.go:212-456), as a transition system.

    A step runs up to the next lock release, clock reading, channel operation or
    network exchange, so every interleaving of any number of lookups is a run.
    Time is in seconds and only moves forward.  `attempts` and `source` are
    history: they record which fetch installed the key set now in the cache.  So
    are the clock readings `checkedAt` and `failedAt` of a lookup.
 */
module Jwks {
  import opened Wrappers

  const CACHE_TTL := 15 * 60
  const MIN_REFRESH := 60
  const STALE_CEILING := 24 * 60 * 60

  /** One fetch.  `keys` is the key set it installed, if it succeeded. */
  datatype Attempt = Attempt(
    leader: nat, startedAt: nat, installedAt: Option<nat>, keys: map<string, string>,
    publishedAt: Option<nat>, closed: bool)

  /** Why a key was handed out: an age check against the cached set's fetch time
      at clock reading `at`, or a refresh joined or led at `joined` whose
      published result was that of attempt `i`, read out at `at`. */
  datatype Basis = Checked(at: nat) | Refreshed(i: nat, joined: nat, at: nat)

  /** Why a lookup got no refresh: one began less than a minute before `at`, or the
      one it led or joined failed. */
  datatype Cause = Throttled(i: nat, at: nat) | FetchFailed(i: nat)

  datatype Answer =
    | Key(key: string, source: nat, basis: Basis)
    | NoSuchKey(source: nat, basis: Basis)
    | RefreshError(cause: Cause)
    | PastCeiling(source: nat, at: nat)

  datatype Stage =
    | Snapped
    | Asks
    | Leads(i: nat)
    | Fetched(i: nat, ok: bool)
    | Announced(i: nat, ok: bool)
    | Waits(i: nat, joined: nat)
    | Succeeded(i: nat, joined: nat)
    | Failed(cause: Cause)
    | Rechecks
    | Returned(answer: Answer)

  /** One call of getKey: what it asked for, its snapshot of the cache, and the
      readings of its age check and of its check after a failed refresh. */
  datatype Lookup = Lookup(
    kid: string, began: nat, key: Option<string>, source: nat, fetchedAt: Option<nat>,
    checkedAt: Option<nat>, failedAt: Option<nat>, stage: Stage)

  datatype World = World(
    now: nat,
    keys: map<string, string>, fetchedAt: Option<nat>, lastAttempt: Option<nat>,
    refreshing: bool, refreshDone: nat, refreshErr: bool, ceilingBreached: bool,
    attempts: seq<Attempt>, source: nat, lastPublished: nat,
    lookups: map<nat, Lookup>)

  datatype Event =
    | Tick(d: nat)
    | Begin(t: nat, kid: string)
    | CheckFresh(t: nat)
    | Enter(t: nat, d: nat)
    | Reply(t: nat, reply: Option<map<string, string>>)
    | Publish(t: nat)
    | CloseDone(t: nat)
    | Wake(t: nat)
    | ServeStale(t: nat)
    | Recheck(t: nat)
    | ReadKey(t: nat)

  // ─── Steps ────────────────────────────────────────────────────────────────

  function Moved(x: World, t: nat, l: Lookup): World {
    x.(lookups := x.lookups[t := l])
  }

  function Goto(x: World, t: nat, stage: Stage): World
    requires t in x.lookups
  {
    Moved(x, t, x.lookups[t].(stage := stage))
  }

  /** Move on, having read the clock for the age check or the stale check. */
  function Checks(x: World, t: nat, stage: Stage): World
    requires t in x.lookups
  {
    Moved(x, t, x.lookups[t].(checkedAt := Some(x.now), stage := stage))
  }

  function ChecksStale(x: World, t: nat, stage: Stage): World
    requires t in x.lookups
  {
    Moved(x, t, x.lookups[t].(failedAt := Some(x.now), stage := stage))
  }

  predicate At(x: World, t: nat, stage: Stage) {
    t in x.lookups && x.lookups[t].stage == stage
  }

  /** time.Since of a zero time exceeds every limit. */
  predicate Within(fetchedAt: Option<nat>, now: nat, limit: nat) {
    fetchedAt.Some? && now - fetchedAt.value <= limit
  }

  function Found(x: World, kid: string): Option<string> {
    if kid in x.keys then Some(x.keys[kid]) else None
  }

  function Begins(x: World, t: nat, kid: string): World {
    if t in x.lookups then x
    else x.(lookups := x.lookups[t := Lookup(kid, x.now, Found(x, kid), x.source, x.fetchedAt, None, None, Snapped)])
  }

  function ChecksFresh(x: World, t: nat): World {
    if !At(x, t, Snapped) then x
    else
      var l := x.lookups[t];
      if l.key.Some? && Within(l.fetchedAt, x.now, CACHE_TTL) then
        Checks(x, t, Returned(Key(l.key.value, l.source, Checked(x.now))))
      else Checks(x, t, Asks)
  }

  /** The locked entry of refreshOnce; the clock may move by `d` between the
      throttle test and the new `lastAttempt`. */
  function Enters(x: World, t: nat, d: nat): World {
    if !At(x, t, Asks) then x
    else if x.refreshing then Goto(x, t, Waits(x.refreshDone, x.now))
    else if x.lastAttempt.Some? && x.now - x.lastAttempt.value < MIN_REFRESH then
      Goto(x, t, Failed(Throttled(if x.attempts == [] then 0 else |x.attempts| - 1, x.now)))
    else
      var i := |x.attempts|;
      var x' := x.(now := x.now + d, refreshing := true, refreshDone := i, lastAttempt := Some(x.now + d),
                   attempts := x.attempts + [Attempt(t, x.now + d, None, map[], None, false)]);
      Goto(x', t, Leads(i))
  }

  /** refresh: no reply, a bad reply and a reply without a usable key all fail. */
  function Replies(x: World, t: nat, reply: Option<map<string, string>>): World {
    if t !in x.lookups || !x.lookups[t].stage.Leads? then x
    else
      var i := x.lookups[t].stage.i;
      if i >= |x.attempts| || reply.None? || reply.value == map[] then Goto(x, t, Fetched(i, false))
      else
        var x' := x.(keys := reply.value, fetchedAt := Some(x.now), ceilingBreached := false, source := i,
                     attempts := x.attempts[i := x.attempts[i].(installedAt := Some(x.now), keys := reply.value)]);
        Goto(x', t, Fetched(i, true))
  }

  function Publishes(x: World, t: nat): World {
    if t !in x.lookups || !x.lookups[t].stage.Fetched? || x.lookups[t].stage.i >= |x.attempts| then x
    else
      var Fetched(i, ok) := x.lookups[t].stage;
      var x' := x.(refreshing := false, refreshErr := !ok, lastPublished := i,
                   attempts := x.attempts[i := x.attempts[i].(publishedAt := Some(x.now))]);
      Goto(x', t, Announced(i, ok))
  }

  function Closes(x: World, t: nat): World {
    if t !in x.lookups || !x.lookups[t].stage.Announced? || x.lookups[t].stage.i >= |x.attempts| then x
    else
      var Announced(i, ok) := x.lookups[t].stage;
      var x' := x.(attempts := x.attempts[i := x.attempts[i].(closed := true)]);
      Goto(x', t, if ok then Succeeded(i, x.attempts[i].startedAt) else Failed(FetchFailed(i)))
  }

  /** A waiter is released by the close and then reads the shared result, which
      may by then be that of a later attempt. */
  function Wakes(x: World, t: nat): World {
    if t !in x.lookups || !x.lookups[t].stage.Waits? then x
    else
      var Waits(i, joined) := x.lookups[t].stage;
      if i >= |x.attempts| || !x.attempts[i].closed then x
      else if x.refreshErr then Goto(x, t, Failed(FetchFailed(x.lastPublished)))
      else Goto(x, t, Succeeded(x.lastPublished, joined))
  }

  function ServesStale(x: World, t: nat): World {
    if t !in x.lookups || !x.lookups[t].stage.Failed? then x
    else
      var l := x.lookups[t];
      if l.key.None? then ChecksStale(x, t, Returned(RefreshError(l.stage.cause)))
      else if Within(l.fetchedAt, x.now, STALE_CEILING) then
        ChecksStale(x, t, Returned(Key(l.key.value, l.source, Checked(x.now))))
      else ChecksStale(x, t, Rechecks)
  }

  function RechecksCeiling(x: World, t: nat): World {
    if !At(x, t, Rechecks) then x
    else if Within(x.fetchedAt, x.now, STALE_CEILING) then
      var k := Found(x, x.lookups[t].kid);
      Goto(x, t, Returned(if k.Some? then Key(k.value, x.source, Checked(x.now)) else NoSuchKey(x.source, Checked(x.now))))
    else Goto(x.(ceilingBreached := true), t, Returned(PastCeiling(x.source, x.now)))
  }

  function ReadsKey(x: World, t: nat): World {
    if t !in x.lookups || !x.lookups[t].stage.Succeeded? then x
    else
      var Succeeded(i, joined) := x.lookups[t].stage;
      var k := Found(x, x.lookups[t].kid);
      var basis := Refreshed(i, joined, x.now);
      Goto(x, t, Returned(if k.Some? then Key(k.value, x.source, basis) else NoSuchKey(x.source, basis)))
  }

  function Step(x: World, e: Event): World {
    match e
    case Tick(d) => x.(now := x.now + d)
    case Begin(t, kid) => Begins(x, t, kid)
    case CheckFresh(t) => ChecksFresh(x, t)
    case Enter(t, d) => Enters(x, t, d)
    case Reply(t, reply) => Replies(x, t, reply)
    case Publish(t) => Publishes(x, t)
    case CloseDone(t) => Closes(x, t)
    case Wake(t) => Wakes(x, t)
    case ServeStale(t) => ServesStale(x, t)
    case Recheck(t) => RechecksCeiling(x, t)
    case ReadKey(t) => ReadsKey(x, t)
  }

  function Run(x: World, events: seq<Event>): World
    decreases |events|
  {
    if events == [] then x else Run(Step(x, events[0]), events[1..])
  }

  function Empty(now: nat): World {
    World(now, map[], None, None, false, 0, false, false, [], 0, 0, map[])
  }

  // ─── The invariant ────────────────────────────────────────────────────────

  predicate Installed(x: World, i: nat) {
    i < |x.attempts| && x.attempts[i].installedAt.Some?
  }

  predicate Published(x: World, i: nat) {
    i < |x.attempts| && x.attempts[i].publishedAt.Some?
  }

  /** Fetch `i` brought `key` under the id `kid`. */
  predicate Vouches(x: World, i: nat, kid: string, key: string) {
    Installed(x, i) && kid in x.attempts[i].keys && x.attempts[i].keys[kid] == key
  }

  /** A successful fetch was still unpublished when it was joined. */
  predicate Rode(x: World, began: nat, i: nat, joined: nat) {
    Installed(x, i) && Published(x, i) && began <= joined <= x.attempts[i].publishedAt.value
  }

  /** Fetch `i` is the latest that installed a key set before `at`. */
  ghost predicate Latest(x: World, i: nat, at: nat) {
    Installed(x, i) && at <= x.now && forall j: nat :: Installed(x, j) && x.attempts[j].installedAt.value < at ==> j <= i
  }

  /** Fetch `i` brought a key set without `kid`. */
  predicate Lacks(x: World, i: nat, kid: string) {
    Installed(x, i) && kid !in x.attempts[i].keys
  }

  ghost predicate BasisHolds(x: World, l: Lookup, source: nat, b: Basis) {
    match b
    case Checked(at) =>
      Installed(x, source) && l.began <= at <= x.now && x.attempts[source].installedAt.value <= at <= x.attempts[source].installedAt.value + STALE_CEILING
    case Refreshed(i, joined, at) =>
      && Rode(x, l.began, i, joined) && Latest(x, source, at) && x.attempts[i].installedAt.value <= x.attempts[source].installedAt.value
      && joined <= at
  }

  predicate CauseHolds(x: World, l: Lookup, c: Cause) {
    match c
    case Throttled(i, at) => i < |x.attempts| && l.began <= at <= x.now && x.attempts[i].startedAt <= at < x.attempts[i].startedAt + MIN_REFRESH
    case FetchFailed(i) => Published(x, i) && !Installed(x, i) && l.began <= x.attempts[i].publishedAt.value
  }

  /** The snapshot had the key, young enough to be handed out at once. */
  predicate Fresh(l: Lookup) {
    l.checkedAt.Some? && l.key.Some? && Within(l.fetchedAt, l.checkedAt.value, CACHE_TTL)
  }

  /** The snapshot had the key, and after a failed refresh it was within the ceiling. */
  predicate Servable(l: Lookup) {
    l.failedAt.Some? && l.key.Some? && Within(l.fetchedAt, l.failedAt.value, STALE_CEILING)
  }

  ghost predicate AnswerHolds(x: World, l: Lookup, a: Answer) {
    && l.checkedAt.Some?
    && (Fresh(l) ==> l.failedAt.None? && a == Key(l.key.value, l.source, Checked(l.checkedAt.value)))
    && (Servable(l) ==> a == Key(l.key.value, l.source, Checked(l.failedAt.value)))
    && (l.failedAt.Some? && l.key.None? <==> a.RefreshError?)
    && (!Fresh(l) && l.failedAt.None? ==> (a.Key? || a.NoSuchKey?) && a.basis.Refreshed?)
    && match a
       case Key(key, source, basis) => Vouches(x, source, l.kid, key) && BasisHolds(x, l, source, basis)
       case NoSuchKey(source, basis) =>
         && Lacks(x, source, l.kid) && BasisHolds(x, l, source, basis) && (basis.Checked? ==> Latest(x, source, basis.at))
       case RefreshError(cause) => CauseHolds(x, l, cause)
       case PastCeiling(source, at) =>
         && Latest(x, source, at) && l.fetchedAt.Some? && l.fetchedAt.value <= x.attempts[source].installedAt.value
         && l.began <= at && x.attempts[source].installedAt.value + STALE_CEILING < at
  }

  ghost predicate SnapshotHolds(x: World, l: Lookup) {
    && l.began <= x.now
    && (l.fetchedAt.Some? ==> Latest(x, l.source, l.began) && x.attempts[l.source].installedAt == l.fetchedAt)
    && l.key == (if l.fetchedAt.Some? && l.kid in x.attempts[l.source].keys then Some(x.attempts[l.source].keys[l.kid]) else None)
    && (l.fetchedAt.None? ==> forall j: nat :: Installed(x, j) ==> l.began <= x.attempts[j].installedAt.value)
    && (l.fetchedAt.Some? ==> x.fetchedAt.Some? && l.fetchedAt.value <= x.fetchedAt.value && l.fetchedAt.value <= l.began)
    && (l.checkedAt.Some? ==> l.began <= l.checkedAt.value <= x.now)
    && (l.failedAt.Some? ==> l.checkedAt.Some? && l.checkedAt.value <= l.failedAt.value <= x.now)
  }

  predicate Underway(l: Lookup) {
    l.checkedAt.Some? && !Fresh(l) && l.failedAt.None?
  }

  ghost predicate StageHolds(x: World, t: nat, l: Lookup) {
    match l.stage
    case Snapped => l.checkedAt.None? && l.failedAt.None?
    case Asks => Underway(l)
    case Leads(i) => Underway(l) && i < |x.attempts| && x.attempts[i].leader == t && !Published(x, i) && !Installed(x, i)
    case Fetched(i, ok) => Underway(l) && i < |x.attempts| && x.attempts[i].leader == t && !Published(x, i) && ok == Installed(x, i)
    case Announced(i, ok) =>
      Underway(l) && Published(x, i) && x.attempts[i].leader == t && !x.attempts[i].closed && ok == Installed(x, i)
    case Waits(i, joined) =>
      && Underway(l) && i < |x.attempts| && l.began <= joined <= x.now
      && (Published(x, i) ==> joined <= x.attempts[i].publishedAt.value)
    case Succeeded(i, joined) => Underway(l) && Rode(x, l.began, i, joined)
    case Failed(cause) => Underway(l) && CauseHolds(x, l, cause)
    case Rechecks => l.checkedAt.Some? && !Fresh(l) && l.failedAt.Some? && l.key.Some? && !Servable(l)
    case Returned(a) => AnswerHolds(x, l, a)
  }

  ghost predicate LookupHolds(x: World, t: nat) {
    t in x.lookups ==> SnapshotHolds(x, x.lookups[t]) && StageHolds(x, t, x.lookups[t])
  }

  /** The thread running attempt `i` is where the attempt says it is. */
  predicate LeaderHolds(x: World, i: nat)
    requires i < |x.attempts|
  {
    var a := x.attempts[i];
    && a.leader in x.lookups && x.lookups[a.leader].began <= a.startedAt
    && (!Published(x, i) ==> x.lookups[a.leader].stage in {Leads(i), Fetched(i, Installed(x, i))})
    && (Published(x, i) && !a.closed ==> x.lookups[a.leader].stage == Announced(i, Installed(x, i)))
  }

  predicate AttemptHolds(x: World, i: nat)
    requires i < |x.attempts|
  {
    var a := x.attempts[i];
    && a.startedAt <= x.now
    && (Installed(x, i) ==>
          && a.startedAt <= a.installedAt.value <= x.now && a.keys != map[]
          && x.fetchedAt.Some? && a.installedAt.value <= x.fetchedAt.value && i <= x.source)
    && (Published(x, i) ==>
          && a.startedAt <= a.publishedAt.value <= x.now
          && Published(x, x.lastPublished) && a.publishedAt.value <= x.attempts[x.lastPublished].publishedAt.value
          && (x.refreshErr <==> !Installed(x, x.lastPublished)))
    && (a.closed ==> Published(x, i))
    && (!Published(x, i) <==> x.refreshing && i == |x.attempts| - 1)
    && LeaderHolds(x, i)
  }

  ghost predicate Spaced(attempts: seq<Attempt>) {
    forall i, j :: 0 <= i < j < |attempts| ==> attempts[i].startedAt + MIN_REFRESH <= attempts[j].startedAt
  }

  predicate CacheHolds(x: World) {
    && (x.fetchedAt.None? ==> x.keys == map[])
    && (x.fetchedAt.Some? ==>
          && Installed(x, x.source) && x.attempts[x.source].installedAt == x.fetchedAt
          && x.attempts[x.source].keys == x.keys && x.keys != map[] && x.fetchedAt.value <= x.now)
    && (x.ceilingBreached ==> x.fetchedAt.Some? && x.fetchedAt.value + STALE_CEILING < x.now)
    && (x.refreshing ==> x.attempts != [] && x.refreshDone == |x.attempts| - 1)
    && x.lastAttempt == (if x.attempts == [] then None else Some(x.attempts[|x.attempts| - 1].startedAt))
  }

  ghost predicate Inv(x: World) {
    && Spaced(x.attempts)
    && CacheHolds(x)
    && (forall i: nat :: i < |x.attempts| ==> AttemptHolds(x, i))
    && (forall t: nat :: t in x.lookups ==> LookupHolds(x, t))
  }

  // ─── Preservation ─────────────────────────────────────────────────────────

  /** What a step of lookup `t` may do to the history. */
  ghost predicate Grows(x: World, y: World, t: nat) {
    && x.now <= y.now && |x.attempts| <= |y.attempts|
    && (x.fetchedAt.Some? ==> y.fetchedAt.Some? && x.fetchedAt.value <= y.fetchedAt.value)
    && (forall i: nat :: i < |x.attempts| ==> AttemptGrows(x, y.attempts[i], x.attempts[i], t))
    && (forall i: nat :: |x.attempts| <= i < |y.attempts| ==> y.attempts[i].installedAt.None?)
  }

  predicate AttemptGrows(x: World, b: Attempt, a: Attempt, t: nat) {
    && b.leader == a.leader && b.startedAt == a.startedAt
    && (a.leader != t ==> b == a)
    && (a.installedAt.Some? ==> b.installedAt == a.installedAt && b.keys == a.keys)
    && (a.publishedAt.Some? ==> b.publishedAt == a.publishedAt)
    && (a.publishedAt.None? && b.publishedAt.Some? ==> x.now <= b.publishedAt.value)
    && (a.installedAt.None? && b.installedAt.Some? ==> x.now <= b.installedAt.value && a.publishedAt.None?)
  }

  lemma LatestKept(x: World, y: World, t: nat, i: nat, at: nat)
    requires Grows(x, y, t) && Latest(x, i, at)
    ensures Latest(y, i, at)
  {
    forall j: nat | Installed(y, j) && y.attempts[j].installedAt.value < at ensures j <= i {
      if j < |x.attempts| { assert AttemptGrows(x, y.attempts[j], x.attempts[j], t); }
    }
    assert AttemptGrows(x, y.attempts[i], x.attempts[i], t);
  }

  lemma BasisKept(x: World, y: World, t: nat, l: Lookup, source: nat, b: Basis)
    requires Grows(x, y, t) && BasisHolds(x, l, source, b)
    ensures BasisHolds(y, l, source, b)
  {
    assert AttemptGrows(x, y.attempts[source], x.attempts[source], t);
    if b.Refreshed? {
      assert AttemptGrows(x, y.attempts[b.i], x.attempts[b.i], t);
      LatestKept(x, y, t, source, b.at);
    }
  }

  lemma CauseKept(x: World, y: World, t: nat, l: Lookup, c: Cause)
    requires Grows(x, y, t) && CauseHolds(x, l, c)
    ensures CauseHolds(y, l, c)
  {
    assert AttemptGrows(x, y.attempts[c.i], x.attempts[c.i], t);
  }

  lemma AnswerKept(x: World, y: World, t: nat, l: Lookup, a: Answer)
    requires Grows(x, y, t) && AnswerHolds(x, l, a)
    ensures AnswerHolds(y, l, a)
  {
    match a {
      case Key(_, source, basis) =>
        assert AttemptGrows(x, y.attempts[source], x.attempts[source], t);
        BasisKept(x, y, t, l, source, basis);
      case NoSuchKey(source, basis) =>
        assert AttemptGrows(x, y.attempts[source], x.attempts[source], t);
        BasisKept(x, y, t, l, source, basis);
        if basis.Checked? { LatestKept(x, y, t, source, basis.at); }
      case RefreshError(cause) => CauseKept(x, y, t, l, cause);
      case PastCeiling(source, at) =>
        assert AttemptGrows(x, y.attempts[source], x.attempts[source], t);
        LatestKept(x, y, t, source, at);
    }
  }

  lemma SnapshotKept(x: World, y: World, t: nat, l: Lookup)
    requires Grows(x, y, t) && SnapshotHolds(x, l)
    ensures SnapshotHolds(y, l)
  {
    if l.fetchedAt.Some? {
      assert AttemptGrows(x, y.attempts[l.source], x.attempts[l.source], t);
      LatestKept(x, y, t, l.source, l.began);
    } else {
      forall j: nat | Installed(y, j) ensures l.began <= y.attempts[j].installedAt.value {
        if j < |x.attempts| { assert AttemptGrows(x, y.attempts[j], x.attempts[j], t); }
      }
    }
  }

  lemma OtherLookupKept(x: World, y: World, t: nat, o: nat)
    requires Grows(x, y, t) && o != t && o in x.lookups && LookupHolds(x, o)
    requires o in y.lookups && y.lookups[o] == x.lookups[o]
    ensures LookupHolds(y, o)
  {
    var l := x.lookups[o];
    SnapshotKept(x, y, t, l);
    match l.stage {
      case Leads(i) => assert AttemptGrows(x, y.attempts[i], x.attempts[i], t);
      case Fetched(i, _) => assert AttemptGrows(x, y.attempts[i], x.attempts[i], t);
      case Announced(i, _) => assert AttemptGrows(x, y.attempts[i], x.attempts[i], t);
      case Waits(i, _) => assert AttemptGrows(x, y.attempts[i], x.attempts[i], t);
      case Succeeded(i, _) => assert AttemptGrows(x, y.attempts[i], x.attempts[i], t);
      case Failed(cause) => CauseKept(x, y, t, l, cause);
      case Returned(a) => AnswerKept(x, y, t, l, a);
      case _ =>
    }
  }

  /** No lookup but `t` begins or moves. */
  ghost predicate OnlyMoves(x: World, y: World, t: nat) {
    forall o: nat :: o in y.lookups && o != t ==> o in x.lookups && y.lookups[o] == x.lookups[o]
  }

  lemma OtherLookupsKept(x: World, y: World, t: nat)
    requires Inv(x) && Grows(x, y, t)
    requires OnlyMoves(x, y, t)
    ensures forall o: nat :: o in y.lookups && o != t ==> LookupHolds(y, o)
  {
    forall o: nat | o in y.lookups && o != t ensures LookupHolds(y, o) {
      assert o in x.lookups && y.lookups[o] == x.lookups[o];
      assert LookupHolds(x, o);
      OtherLookupKept(x, y, t, o);
    }
  }

  lemma Assemble(x: World, y: World, t: nat)
    requires Inv(x) && Grows(x, y, t)
    requires OnlyMoves(x, y, t)
    requires CacheHolds(y) && Spaced(y.attempts) && LookupHolds(y, t)
    requires forall i: nat :: i < |y.attempts| ==> AttemptHolds(y, i)
    ensures Inv(y)
  {
    OtherLookupsKept(x, y, t);
  }

  predicate LeadsNone(s: Stage) {
    !(s.Leads? || s.Fetched? || s.Announced?)
  }

  /** A step that only moves a lookup between stages that lead no attempt. */
  lemma MoveKeepsInv(x: World, t: nat, l: Lookup)
    requires Inv(x) && t in x.lookups && LeadsNone(x.lookups[t].stage) && l.began == x.lookups[t].began
    requires SnapshotHolds(x, l) && StageHolds(x, t, l)
    ensures Inv(Moved(x, t, l))
  {
    var y := Moved(x, t, l);
    forall i: nat | i < |y.attempts| ensures AttemptHolds(y, i) { MoveKeepsAttempt(x, t, l, i); }
    MoveGrows(x, t, l);
    OwnLookupHolds(x, t, l);
    Assemble(x, y, t);
  }

  lemma MoveGrows(x: World, t: nat, l: Lookup)
    ensures Grows(x, Moved(x, t, l), t) && OnlyMoves(x, Moved(x, t, l), t) && (CacheHolds(x) ==> CacheHolds(Moved(x, t, l)))
  {
  }

  lemma MoveKeepsAttempt(x: World, t: nat, l: Lookup, i: nat)
    requires t in x.lookups && i < |x.attempts| && AttemptHolds(x, i) && LeadsNone(x.lookups[t].stage) && l.began == x.lookups[t].began
    ensures AttemptHolds(Moved(x, t, l), i)
  {
  }

  lemma OwnLookupHolds(x: World, t: nat, l: Lookup)
    requires SnapshotHolds(x, l) && StageHolds(x, t, l)
    ensures LookupHolds(Moved(x, t, l), t)
  {
    var y := Moved(x, t, l);
    SnapshotKept(x, y, t, l);
    if l.stage.Returned? { AnswerKept(x, y, t, l, l.stage.answer); }
  }

  lemma GotoKeepsInv(x: World, t: nat, stage: Stage)
    requires Inv(x) && t in x.lookups && LeadsNone(x.lookups[t].stage)
    requires StageHolds(x, t, x.lookups[t].(stage := stage))
    ensures Inv(Goto(x, t, stage))
  {
    assert LookupHolds(x, t);
    MoveKeepsInv(x, t, x.lookups[t].(stage := stage));
  }

  lemma TickKeepsInv(x: World, d: nat)
    requires Inv(x)
    ensures Inv(Step(x, Tick(d)))
  {
    LaterKeepsInv(x, d);
  }

  lemma LaterKeepsInv(x: World, d: nat)
    requires Inv(x)
    ensures Inv(x.(now := x.now + d))
  {
    var y := x.(now := x.now + d);
    forall i: nat | i < |y.attempts| ensures AttemptHolds(y, i) { TickKeepsAttempt(x, d, i); }
    forall o: nat | o in y.lookups ensures LookupHolds(y, o) {
      assert LookupHolds(x, o);
      TickKeepsLookup(x, d, o);
    }
  }

  lemma TickKeepsAttempt(x: World, d: nat, i: nat)
    requires i < |x.attempts| && AttemptHolds(x, i)
    ensures AttemptHolds(x.(now := x.now + d), i)
  {
  }

  lemma TickKeepsLookup(x: World, d: nat, o: nat)
    requires o in x.lookups && LookupHolds(x, o)
    ensures LookupHolds(x.(now := x.now + d), o)
  {
    var y := x.(now := x.now + d);
    assert Grows(x, y, o + 1);
    OtherLookupKept(x, y, o + 1, o);
  }

  lemma BeginsKeepsInv(x: World, t: nat, kid: string)
    requires Inv(x)
    ensures Inv(Step(x, Begin(t, kid)))
  {
    if t !in x.lookups {
      var y := Begins(x, t, kid);
      forall i: nat | i < |y.attempts| ensures AttemptHolds(y, i) { BeginsKeepsAttempt(x, t, kid, i); }
      BeginsLocally(x, t, kid);
      Assemble(x, y, t);
    }
  }

  lemma BeginsKeepsAttempt(x: World, t: nat, kid: string, i: nat)
    requires t !in x.lookups && i < |x.attempts| && AttemptHolds(x, i)
    ensures AttemptHolds(Begins(x, t, kid), i)
  {
  }

  /** The key set in the cache is the latest installed. */
  lemma CacheIsLatest(x: World)
    requires Inv(x)
    ensures x.fetchedAt.Some? ==> Latest(x, x.source, x.now)
    ensures x.fetchedAt.None? ==> forall j: nat :: !Installed(x, j)
  {
    forall j: nat | Installed(x, j) ensures x.fetchedAt.Some? && j <= x.source { assert AttemptHolds(x, j); }
  }

  lemma BeginsLocally(x: World, t: nat, kid: string)
    requires t !in x.lookups && Inv(x)
    ensures var y := Begins(x, t, kid); Grows(x, y, t) && OnlyMoves(x, y, t) && CacheHolds(y) && LookupHolds(y, t)
  {
    CacheIsLatest(x);
    var y := Begins(x, t, kid);
    var l := y.lookups[t];
    assert SnapshotHolds(x, l);
    assert Grows(x, y, t);
    SnapshotKept(x, y, t, l);
  }

  /** A checked snapshot makes a good answer, fresh or within the ceiling. */
  lemma SnapshotBasisHolds(x: World, l: Lookup)
    requires SnapshotHolds(x, l) && l.key.Some? && Within(l.fetchedAt, x.now, STALE_CEILING)
    ensures Vouches(x, l.source, l.kid, l.key.value) && BasisHolds(x, l, l.source, Checked(x.now))
  {
  }

  lemma ChecksFreshKeepsInv(x: World, t: nat)
    requires Inv(x)
    ensures Inv(Step(x, CheckFresh(t)))
  {
    if At(x, t, Snapped) {
      var l := x.lookups[t];
      assert LookupHolds(x, t);
      if l.key.Some? && Within(l.fetchedAt, x.now, CACHE_TTL) {
        var l' := l.(checkedAt := Some(x.now), stage := Returned(Key(l.key.value, l.source, Checked(x.now))));
        SnapshotBasisHolds(x, l');
        MoveKeepsInv(x, t, l');
      } else {
        MoveKeepsInv(x, t, l.(checkedAt := Some(x.now), stage := Asks));
      }
    }
  }

  lemma ServesStaleKeepsInv(x: World, t: nat)
    requires Inv(x)
    ensures Inv(Step(x, ServeStale(t)))
  {
    if t in x.lookups && x.lookups[t].stage.Failed? {
      var l := x.lookups[t];
      assert LookupHolds(x, t);
      var l' := l.(failedAt := Some(x.now));
      LaterSnapshotHolds(x, l);
      if l.key.None? {
        ErrorStageHolds(x, t, l);
        MoveKeepsInv(x, t, l'.(stage := Returned(RefreshError(l.stage.cause))));
      } else if Within(l.fetchedAt, x.now, STALE_CEILING) {
        StaleStageHolds(x, t, l);
        MoveKeepsInv(x, t, l'.(stage := Returned(Key(l.key.value, l.source, Checked(x.now)))));
      } else {
        MoveKeepsInv(x, t, l'.(stage := Rechecks));
      }
    }
  }

  lemma LaterSnapshotHolds(x: World, l: Lookup)
    requires SnapshotHolds(x, l) && l.checkedAt.Some?
    ensures forall s :: SnapshotHolds(x, l.(failedAt := Some(x.now), stage := s))
  {
  }

  lemma ErrorStageHolds(x: World, t: nat, l: Lookup)
    requires l.stage.Failed? && StageHolds(x, t, l) && l.key.None?
    ensures StageHolds(x, t, l.(failedAt := Some(x.now), stage := Returned(RefreshError(l.stage.cause))))
  {
  }

  lemma StaleStageHolds(x: World, t: nat, l: Lookup)
    requires l.stage.Failed? && SnapshotHolds(x, l) && StageHolds(x, t, l) && l.key.Some? && Within(l.fetchedAt, x.now, STALE_CEILING)
    ensures StageHolds(x, t, l.(failedAt := Some(x.now), stage := Returned(Key(l.key.value, l.source, Checked(x.now)))))
  {
    SnapshotBasisHolds(x, l);
  }

  lemma BreachKeepsInv(x: World)
    requires Inv(x) && x.fetchedAt.Some? && x.fetchedAt.value + STALE_CEILING < x.now
    ensures Inv(x.(ceilingBreached := true))
  {
    var y := x.(ceilingBreached := true);
    forall i: nat | i < |y.attempts| ensures AttemptHolds(y, i) {
      assert AttemptHolds(x, i);
      BreachKeepsAttempt(x, i);
    }
    forall o: nat | o in y.lookups ensures LookupHolds(y, o) {
      assert LookupHolds(x, o);
      BreachKeepsLookup(x, o);
    }
  }

  lemma BreachKeepsAttempt(x: World, i: nat)
    requires i < |x.attempts| && AttemptHolds(x, i)
    ensures AttemptHolds(x.(ceilingBreached := true), i)
  {
  }

  lemma BreachKeepsLookup(x: World, o: nat)
    requires o in x.lookups && LookupHolds(x, o)
    ensures LookupHolds(x.(ceilingBreached := true), o)
  {
    var y := x.(ceilingBreached := true);
    assert Grows(x, y, o + 1);
    OtherLookupKept(x, y, o + 1, o);
  }

  /** An answer read from the cache as it is now. */
  lemma CacheAnswerHolds(x: World, l: Lookup, basis: Basis)
    requires Inv(x) && x.fetchedAt.Some? && (basis.Checked? ==> basis.at == x.now) && BasisHolds(x, l, x.source, basis)
    requires l.checkedAt.Some? && !Fresh(l) && !Servable(l)
    requires if basis.Checked? then l.failedAt.Some? && l.key.Some? else l.failedAt.None?
    ensures var k := Found(x, l.kid);
      AnswerHolds(x, l, if k.Some? then Key(k.value, x.source, basis) else NoSuchKey(x.source, basis))
  {
    CacheIsLatest(x);
  }

  lemma RechecksKeepsInv(x: World, t: nat)
    requires Inv(x)
    ensures Inv(Step(x, Recheck(t)))
  {
    if At(x, t, Rechecks) {
      assert LookupHolds(x, t);
      var l := x.lookups[t];
      CacheIsLatest(x);
      if Within(x.fetchedAt, x.now, STALE_CEILING) {
        RecheckedHolds(x, t);
        GotoKeepsInv(x, t, RechecksCeiling(x, t).lookups[t].stage);
      } else {
        BreachKeepsInv(x);
        PastCeilingHolds(x, l);
        GotoKeepsInv(x.(ceilingBreached := true), t, Returned(PastCeiling(x.source, x.now)));
      }
    }
  }

  lemma RecheckedHolds(x: World, t: nat)
    requires Inv(x) && At(x, t, Rechecks) && LookupHolds(x, t) && Within(x.fetchedAt, x.now, STALE_CEILING)
    ensures StageHolds(x, t, x.lookups[t].(stage := RechecksCeiling(x, t).lookups[t].stage))
  {
    var l := x.lookups[t].(stage := RechecksCeiling(x, t).lookups[t].stage);
    CacheAnswerHolds(x, l, Checked(x.now));
  }

  lemma PastCeilingHolds(x: World, l: Lookup)
    requires Inv(x) && SnapshotHolds(x, l) && l.stage.Rechecks? && StageHolds(x, 0, l) && !Within(x.fetchedAt, x.now, STALE_CEILING)
    ensures
      var y := x.(ceilingBreached := true);
      StageHolds(y, 0, l.(stage := Returned(PastCeiling(x.source, x.now))))
  {
    CacheIsLatest(x);
    LatestKept(x, x.(ceilingBreached := true), 0, x.source, x.now);
  }

  lemma ReadsKeyKeepsInv(x: World, t: nat)
    requires Inv(x)
    ensures Inv(Step(x, ReadKey(t)))
  {
    if t in x.lookups && x.lookups[t].stage.Succeeded? {
      assert LookupHolds(x, t);
      var l := x.lookups[t];
      var Succeeded(i, joined) := l.stage;
      assert AttemptHolds(x, i);
      CacheIsLatest(x);
      var a := ReadsKey(x, t).lookups[t].stage;
      RodeBasisHolds(x, l, i, joined);
      CacheAnswerHolds(x, l.(stage := a), Refreshed(i, joined, x.now));
      GotoKeepsInv(x, t, a);
    }
  }

  lemma RodeBasisHolds(x: World, l: Lookup, i: nat, joined: nat)
    requires Inv(x) && Rode(x, l.began, i, joined) && AttemptHolds(x, i)
    ensures x.fetchedAt.Some? && BasisHolds(x, l, x.source, Refreshed(i, joined, x.now))
  {
    CacheIsLatest(x);
  }

  lemma WakesKeepsInv(x: World, t: nat)
    requires Inv(x)
    ensures Inv(Step(x, Wake(t)))
  {
    if t in x.lookups && x.lookups[t].stage.Waits? {
      assert LookupHolds(x, t);
      var Waits(i, joined) := x.lookups[t].stage;
      if x.attempts[i].closed {
        assert AttemptHolds(x, i);
        WokenStageHolds(x, t);
        GotoKeepsInv(x, t, Wakes(x, t).lookups[t].stage);
      }
    }
  }

  lemma WokenStageHolds(x: World, t: nat)
    requires t in x.lookups && x.lookups[t].stage.Waits? && StageHolds(x, t, x.lookups[t])
    requires x.attempts[x.lookups[t].stage.i].closed && AttemptHolds(x, x.lookups[t].stage.i)
    ensures StageHolds(x, t, x.lookups[t].(stage := Wakes(x, t).lookups[t].stage))
  {
  }

  lemma EntersKeepsInv(x: World, t: nat, d: nat)
    requires Inv(x)
    ensures Inv(Step(x, Enter(t, d)))
  {
    if At(x, t, Asks) {
      assert LookupHolds(x, t);
      if x.refreshing {
        assert AttemptHolds(x, x.refreshDone);
        JoinHolds(x, t);
        GotoKeepsInv(x, t, Waits(x.refreshDone, x.now));
      } else if x.lastAttempt.Some? && x.now - x.lastAttempt.value < MIN_REFRESH {
        assert AttemptHolds(x, |x.attempts| - 1);
        ThrottleHolds(x, t);
        GotoKeepsInv(x, t, Failed(Throttled(|x.attempts| - 1, x.now)));
      } else {
        LeadsKeepsInv(x, t, d);
      }
    }
  }

  lemma JoinHolds(x: World, t: nat)
    requires At(x, t, Asks) && x.refreshing && CacheHolds(x) && LookupHolds(x, t) && AttemptHolds(x, x.refreshDone)
    ensures StageHolds(x, t, x.lookups[t].(stage := Waits(x.refreshDone, x.now)))
  {
  }

  lemma ThrottleHolds(x: World, t: nat)
    requires At(x, t, Asks) && CacheHolds(x) && LookupHolds(x, t)
    requires x.lastAttempt.Some? && x.now - x.lastAttempt.value < MIN_REFRESH && AttemptHolds(x, |x.attempts| - 1)
    ensures StageHolds(x, t, x.lookups[t].(stage := Failed(Throttled(|x.attempts| - 1, x.now))))
  {
  }

  lemma LeadsKeepsInv(x: World, t: nat, d: nat)
    requires Inv(x) && At(x, t, Asks) && !x.refreshing
    requires x.lastAttempt.Some? ==> x.now - x.lastAttempt.value >= MIN_REFRESH
    ensures Inv(Enters(x, t, d))
  {
    var y := Enters(x, t, d);
    assert LookupHolds(x, t);
    LeadsLocally(x, t, d);
    forall i: nat | i < |y.attempts| ensures AttemptHolds(y, i) {
      if i < |x.attempts| { assert AttemptHolds(x, i); }
      LeadsKeepsAttempt(x, t, d, i);
    }
    Assemble(x, y, t);
  }

  lemma LeadsLocally(x: World, t: nat, d: nat)
    requires At(x, t, Asks) && !x.refreshing && CacheHolds(x) && Spaced(x.attempts) && LookupHolds(x, t)
    requires x.lastAttempt.Some? ==> x.now - x.lastAttempt.value >= MIN_REFRESH
    ensures var y := Enters(x, t, d); Grows(x, y, t) && OnlyMoves(x, y, t) && CacheHolds(y) && Spaced(y.attempts) && LookupHolds(y, t)
  {
    var y := Enters(x, t, d);
    assert Grows(x, y, t);
    SnapshotKept(x, y, t, x.lookups[t]);
    LeadsSpaced(x, t, d);
  }

  lemma LeadsSpaced(x: World, t: nat, d: nat)
    requires At(x, t, Asks) && !x.refreshing && CacheHolds(x) && Spaced(x.attempts)
    requires x.lastAttempt.Some? ==> x.now - x.lastAttempt.value >= MIN_REFRESH
    ensures Spaced(Enters(x, t, d).attempts)
  {
    var y := Enters(x, t, d);
    forall i, j | 0 <= i < j < |y.attempts|
      ensures y.attempts[i].startedAt + MIN_REFRESH <= y.attempts[j].startedAt
    {
      if j == |x.attempts| && i < j - 1 { assert x.attempts[i].startedAt + MIN_REFRESH <= x.attempts[j - 1].startedAt; }
    }
  }

  lemma LeadsKeepsAttempt(x: World, t: nat, d: nat, i: nat)
    requires At(x, t, Asks) && !x.refreshing && CacheHolds(x) && LookupHolds(x, t)
    requires x.lastAttempt.Some? ==> x.now - x.lastAttempt.value >= MIN_REFRESH
    requires i <= |x.attempts| && (i < |x.attempts| ==> AttemptHolds(x, i))
    ensures AttemptHolds(Enters(x, t, d), i)
  {
  }

  lemma RepliesKeepsInv(x: World, t: nat, reply: Option<map<string, string>>)
    requires Inv(x)
    ensures Inv(Step(x, Reply(t, reply)))
  {
    if t in x.lookups && x.lookups[t].stage.Leads? {
      var y := Replies(x, t, reply);
      assert LookupHolds(x, t) && AttemptHolds(x, x.lookups[t].stage.i);
      RepliesLocally(x, t, reply);
      forall i: nat | i < |y.attempts| ensures AttemptHolds(y, i) { RepliesKeepsAttempt(x, t, reply, i); }
      Assemble(x, y, t);
    }
  }

  predicate Usable(reply: Option<map<string, string>>) {
    reply.Some? && reply.value != map[]
  }

  lemma RepliesLocally(x: World, t: nat, reply: Option<map<string, string>>)
    requires t in x.lookups && x.lookups[t].stage.Leads? && LookupHolds(x, t)
    requires AttemptHolds(x, x.lookups[t].stage.i) && CacheHolds(x) && Spaced(x.attempts)
    ensures var y := Replies(x, t, reply); Grows(x, y, t) && OnlyMoves(x, y, t) && CacheHolds(y) && Spaced(y.attempts) && LookupHolds(y, t)
  {
    if Usable(reply) { InstallsLocally(x, t, reply); } else { FailsLocally(x, t, reply); }
  }

  lemma FailsLocally(x: World, t: nat, reply: Option<map<string, string>>)
    requires t in x.lookups && x.lookups[t].stage.Leads? && LookupHolds(x, t)
    requires AttemptHolds(x, x.lookups[t].stage.i) && CacheHolds(x) && Spaced(x.attempts) && !Usable(reply)
    ensures var y := Replies(x, t, reply); Grows(x, y, t) && OnlyMoves(x, y, t) && CacheHolds(y) && Spaced(y.attempts) && LookupHolds(y, t)
  {
    var y := Replies(x, t, reply);
    assert y == Goto(x, t, Fetched(x.lookups[t].stage.i, false));
    assert Grows(x, y, t);
    SnapshotKept(x, y, t, x.lookups[t]);
  }

  lemma InstallsLocally(x: World, t: nat, reply: Option<map<string, string>>)
    requires t in x.lookups && x.lookups[t].stage.Leads? && LookupHolds(x, t)
    requires AttemptHolds(x, x.lookups[t].stage.i) && CacheHolds(x) && Spaced(x.attempts) && Usable(reply)
    ensures var y := Replies(x, t, reply); Grows(x, y, t) && OnlyMoves(x, y, t) && CacheHolds(y) && Spaced(y.attempts) && LookupHolds(y, t)
  {
    var i := x.lookups[t].stage.i;
    var y := Replies(x, t, reply);
    var a := x.attempts[i].(installedAt := Some(x.now), keys := reply.value);
    assert y.attempts == x.attempts[i := a] && AttemptGrows(x, a, x.attempts[i], t);
    assert Grows(x, y, t);
    SnapshotKept(x, y, t, x.lookups[t]);
  }

  lemma RepliesKeepsAttempt(x: World, t: nat, reply: Option<map<string, string>>, i: nat)
    requires t in x.lookups && x.lookups[t].stage.Leads? && LookupHolds(x, t) && i < |x.attempts|
    requires AttemptHolds(x, i) && AttemptHolds(x, x.lookups[t].stage.i)
    requires CacheHolds(x)
    ensures AttemptHolds(Replies(x, t, reply), i)
  {
    if !Usable(reply) {
      FailKeepsAttempt(x, t, i);
    } else if i == x.lookups[t].stage.i {
      InstallKeepsOwnAttempt(x, t, reply);
    } else {
      InstallKeepsOtherAttempt(x, t, reply, i);
    }
  }

  lemma FailKeepsAttempt(x: World, t: nat, i: nat)
    requires t in x.lookups && x.lookups[t].stage.Leads? && LookupHolds(x, t) && i < |x.attempts| && AttemptHolds(x, i)
    ensures AttemptHolds(Goto(x, t, Fetched(x.lookups[t].stage.i, false)), i)
  {
  }

  lemma InstallKeepsOwnAttempt(x: World, t: nat, reply: Option<map<string, string>>)
    requires t in x.lookups && x.lookups[t].stage.Leads? && LookupHolds(x, t) && Usable(reply)
    requires AttemptHolds(x, x.lookups[t].stage.i) && CacheHolds(x)
    ensures AttemptHolds(Replies(x, t, reply), x.lookups[t].stage.i)
  {
    assert LeaderHolds(Replies(x, t, reply), x.lookups[t].stage.i);
  }

  lemma InstallKeepsOtherAttempt(x: World, t: nat, reply: Option<map<string, string>>, i: nat)
    requires t in x.lookups && x.lookups[t].stage.Leads? && LookupHolds(x, t) && Usable(reply)
    requires i < |x.attempts| && i != x.lookups[t].stage.i
    requires AttemptHolds(x, i) && AttemptHolds(x, x.lookups[t].stage.i) && CacheHolds(x)
    ensures AttemptHolds(Replies(x, t, reply), i)
  {
    var y := Replies(x, t, reply);
    assert y.attempts[i] == x.attempts[i] && Published(x, i) && LeaderHolds(y, i);
    assert x.lastPublished != x.lookups[t].stage.i;
  }

  lemma PublishesKeepsInv(x: World, t: nat)
    requires Inv(x)
    ensures Inv(Step(x, Publish(t)))
  {
    if t in x.lookups && x.lookups[t].stage.Fetched? {
      var y := Publishes(x, t);
      assert LookupHolds(x, t) && AttemptHolds(x, x.lookups[t].stage.i);
      PublishesLocally(x, t);
      forall i: nat | i < |y.attempts| ensures AttemptHolds(y, i) { PublishesKeepsAttempt(x, t, i); }
      Assemble(x, y, t);
    }
  }

  lemma PublishesLocally(x: World, t: nat)
    requires t in x.lookups && x.lookups[t].stage.Fetched? && LookupHolds(x, t)
    requires AttemptHolds(x, x.lookups[t].stage.i) && CacheHolds(x) && Spaced(x.attempts)
    ensures var y := Publishes(x, t); Grows(x, y, t) && OnlyMoves(x, y, t) && CacheHolds(y) && Spaced(y.attempts) && LookupHolds(y, t)
  {
    var y := Publishes(x, t);
    assert Grows(x, y, t);
    SnapshotKept(x, y, t, x.lookups[t]);
  }

  lemma PublishesKeepsAttempt(x: World, t: nat, i: nat)
    requires t in x.lookups && x.lookups[t].stage.Fetched? && LookupHolds(x, t) && i < |x.attempts|
    requires AttemptHolds(x, i) && AttemptHolds(x, x.lookups[t].stage.i)
    requires CacheHolds(x)
    ensures AttemptHolds(Publishes(x, t), i)
  {
  }

  lemma ClosesKeepsInv(x: World, t: nat)
    requires Inv(x)
    ensures Inv(Step(x, CloseDone(t)))
  {
    if t in x.lookups && x.lookups[t].stage.Announced? {
      var y := Closes(x, t);
      assert LookupHolds(x, t) && AttemptHolds(x, x.lookups[t].stage.i);
      ClosesLocally(x, t);
      forall i: nat | i < |y.attempts| ensures AttemptHolds(y, i) { ClosesKeepsAttempt(x, t, i); }
      Assemble(x, y, t);
    }
  }

  lemma ClosesLocally(x: World, t: nat)
    requires t in x.lookups && x.lookups[t].stage.Announced? && LookupHolds(x, t)
    requires AttemptHolds(x, x.lookups[t].stage.i) && CacheHolds(x) && Spaced(x.attempts)
    ensures var y := Closes(x, t); Grows(x, y, t) && OnlyMoves(x, y, t) && CacheHolds(y) && Spaced(y.attempts) && LookupHolds(y, t)
  {
    var y := Closes(x, t);
    ClosesGrows(x, t);
    SnapshotKept(x, y, t, x.lookups[t]);
    ClosedStage(x, t);
  }

  lemma ClosesGrows(x: World, t: nat)
    requires t in x.lookups && x.lookups[t].stage.Announced? && StageHolds(x, t, x.lookups[t]) && CacheHolds(x) && Spaced(x.attempts)
    ensures var y := Closes(x, t); Grows(x, y, t) && OnlyMoves(x, y, t) && CacheHolds(y) && Spaced(y.attempts)
  {
    var y := Closes(x, t);
    var i := x.lookups[t].stage.i;
    assert y.attempts == x.attempts[i := x.attempts[i].(closed := true)];
  }

  lemma ClosedStage(x: World, t: nat)
    requires t in x.lookups && x.lookups[t].stage.Announced? && StageHolds(x, t, x.lookups[t])
    requires AttemptHolds(x, x.lookups[t].stage.i)
    ensures var y := Closes(x, t); StageHolds(y, t, y.lookups[t]) && y.lookups[t] == x.lookups[t].(stage := y.lookups[t].stage)
  {
  }

  lemma ClosesKeepsAttempt(x: World, t: nat, i: nat)
    requires t in x.lookups && x.lookups[t].stage.Announced? && LookupHolds(x, t) && i < |x.attempts|
    requires AttemptHolds(x, i) && AttemptHolds(x, x.lookups[t].stage.i)
    requires CacheHolds(x)
    ensures AttemptHolds(Closes(x, t), i)
  {
    var own := x.lookups[t].stage.i;
    var y := Closes(x, t);
    if i == own {
      assert y.attempts[i] == x.attempts[i].(closed := true);
      assert LeaderHolds(y, i);
    } else {
      assert y.attempts[i] == x.attempts[i] && LeaderHolds(x, i);
      assert LeaderHolds(y, i);
    }
    assert Published(y, y.lastPublished) == Published(x, x.lastPublished) && Installed(y, y.lastPublished) == Installed(x, x.lastPublished);
  }

  lemma StepKeepsInv(x: World, e: Event)
    requires Inv(x)
    ensures Inv(Step(x, e))
  {
    match e
    case Tick(d) => TickKeepsInv(x, d);
    case Begin(t, kid) => BeginsKeepsInv(x, t, kid);
    case CheckFresh(t) => ChecksFreshKeepsInv(x, t);
    case Enter(t, d) => EntersKeepsInv(x, t, d);
    case Reply(t, reply) => RepliesKeepsInv(x, t, reply);
    case Publish(t) => PublishesKeepsInv(x, t);
    case CloseDone(t) => ClosesKeepsInv(x, t);
    case Wake(t) => WakesKeepsInv(x, t);
    case ServeStale(t) => ServesStaleKeepsInv(x, t);
    case Recheck(t) => RechecksKeepsInv(x, t);
    case ReadKey(t) => ReadsKeyKeepsInv(x, t);
  }

  lemma {:induction false} InvAlways(x: World, events: seq<Event>)
    requires Inv(x)
    ensures Inv(Run(x, events))
    decreases |events|
  {
    if events != [] {
      StepKeepsInv(x, events[0]);
      InvAlways(Step(x, events[0]), events[1..]);
    }
  }

  // ─── Main results ─────────────────────────────────────────────────────────

  predicate InFlight(x: World, t: nat) {
    t in x.lookups && (x.lookups[t].stage.Leads? || x.lookups[t].stage.Fetched?)
  }

  /** Whatever the number of lookups, fetches start at least a minute apart and
      never overlap. */
  lemma RefreshesAreLimited(now: nat, events: seq<Event>)
    ensures var y := Run(Empty(now), events);
      && Spaced(y.attempts)
      && forall t: nat, o: nat :: InFlight(y, t) && InFlight(y, o) ==> t == o
  {
    InvAlways(Empty(now), events);
    var y := Run(Empty(now), events);
    forall t: nat, o: nat | InFlight(y, t) && InFlight(y, o) ensures t == o {
      assert LookupHolds(y, t) && LookupHolds(y, o);
      assert AttemptHolds(y, y.lookups[t].stage.i) && AttemptHolds(y, y.lookups[o].stage.i);
    }
  }

  predicate HasKeys(x: World) {
    x.keys != map[] && x.fetchedAt.Some? && x.fetchedAt.value <= x.now
  }

  lemma OnlyRepliesTouchKeys(x: World, e: Event)
    requires !e.Reply?
    ensures var y := Step(x, e); y.keys == x.keys && y.fetchedAt == x.fetchedAt && x.now <= y.now
  {
    match e
    case Tick(_) =>
    case Begin(t, kid) => assert Begins(x, t, kid).keys == x.keys;
    case Enter(t, d) => assert Enters(x, t, d).keys == x.keys;
    case Publish(t) => assert Publishes(x, t).keys == x.keys;
    case CloseDone(t) => assert Closes(x, t).keys == x.keys;
    case _ => ReadersTouchNoKeys(x, e);
  }

  lemma ReadersTouchNoKeys(x: World, e: Event)
    requires e.CheckFresh? || e.Wake? || e.ServeStale? || e.Recheck? || e.ReadKey?
    ensures var y := Step(x, e); y.keys == x.keys && y.fetchedAt == x.fetchedAt && x.now <= y.now
  {
    match e
    case CheckFresh(t) => assert ChecksFresh(x, t) == x.(lookups := ChecksFresh(x, t).lookups);
    case Wake(t) => assert Wakes(x, t) == x.(lookups := Wakes(x, t).lookups);
    case ServeStale(t) => assert ServesStale(x, t) == x.(lookups := ServesStale(x, t).lookups);
    case Recheck(t) => assert RechecksCeiling(x, t).keys == x.keys;
    case ReadKey(t) => assert ReadsKey(x, t) == x.(lookups := ReadsKey(x, t).lookups);
  }

  lemma StepKeepsKeys(x: World, e: Event)
    requires HasKeys(x)
    ensures HasKeys(Step(x, e)) && x.fetchedAt.value <= Step(x, e).fetchedAt.value
  {
    if !e.Reply? { OnlyRepliesTouchKeys(x, e); }
  }

  /** A failed or empty reply never costs a cached key set: once there are keys,
      there are keys in every later state, and their fetch time never goes back. */
  lemma {:induction false} KeysSurvive(x: World, events: seq<Event>)
    requires HasKeys(x)
    ensures HasKeys(Run(x, events)) && x.fetchedAt.value <= Run(x, events).fetchedAt.value
    decreases |events|
  {
    if events != [] {
      StepKeepsKeys(x, events[0]);
      KeysSurvive(Step(x, events[0]), events[1..]);
    }
  }

  /** The breach flag and every ceiling refusal are true: at that moment the
      cached key set was older than a day. */
  lemma BreachIsReal(now: nat, events: seq<Event>, t: nat)
    ensures var y := Run(Empty(now), events);
      && (y.ceilingBreached ==> y.fetchedAt.Some? && y.now - y.fetchedAt.value > STALE_CEILING)
      && (t in y.lookups && y.lookups[t].stage.Returned? && y.lookups[t].stage.answer.PastCeiling? ==>
            var PastCeiling(source, at) := y.lookups[t].stage.answer;
            Installed(y, source) && at - y.attempts[source].installedAt.value > STALE_CEILING)
  {
    InvAlways(Empty(now), events);
    assert LookupHolds(Run(Empty(now), events), t);
  }

  /** Every answer is the right one.  A lookup works on the latest key set installed
      before it began.  Its key is handed out at once when young enough, and after a
      failed refresh when within the ceiling.  It is told of the failure exactly when
      its snapshot lacked the key and the refresh was throttled or did fail.  It is
      told there is no such key only when the key set then in the cache lacks it. */
  lemma EveryAnswerIsRight(now: nat, events: seq<Event>, t: nat)
    requires var y := Run(Empty(now), events); t in y.lookups && y.lookups[t].stage.Returned?
    ensures
      var y := Run(Empty(now), events);
      var l, a := y.lookups[t], y.lookups[t].stage.answer;
      && (l.fetchedAt.Some? ==> Latest(y, l.source, l.began) && y.attempts[l.source].installedAt == l.fetchedAt)
      && (l.key.Some? <==> l.fetchedAt.Some? && l.kid in y.attempts[l.source].keys)
      && l.checkedAt.Some? && l.began <= l.checkedAt.value
      && (l.key.Some? && l.checkedAt.value - l.fetchedAt.value <= CACHE_TTL ==> a == Key(l.key.value, l.source, Checked(l.checkedAt.value)))
      && (l.key.Some? && l.failedAt.Some? && l.failedAt.value - l.fetchedAt.value <= STALE_CEILING ==>
            a == Key(l.key.value, l.source, Checked(l.failedAt.value)))
      && (a.RefreshError? <==> l.failedAt.Some? && l.key.None?)
      && (a.RefreshError? ==> CauseHolds(y, l, a.cause))
      && (a.Key? ==> Vouches(y, a.source, l.kid, a.key))
      && (a.NoSuchKey? ==> l.began <= a.basis.at && Latest(y, a.source, a.basis.at) && l.kid !in y.attempts[a.source].keys)
  {
    InvAlways(Empty(now), events);
    assert LookupHolds(Run(Empty(now), events), t);
  }

  /** The event by which a lookup moves on. */
  function NextMove(x: World, t: nat): Event
    requires t in x.lookups
  {
    match x.lookups[t].stage
    case Snapped => CheckFresh(t)
    case Asks => Enter(t, 0)
    case Leads(_) => Reply(t, None)
    case Fetched(_, _) => Publish(t)
    case Announced(_, _) => CloseDone(t)
    case Waits(_, _) => Wake(t)
    case Succeeded(_, _) => ReadKey(t)
    case Failed(_) => ServeStale(t)
    case Rechecks => Recheck(t)
    case Returned(_) => Tick(0)
  }

  function MovesLeft(s: Stage): nat {
    match s
    case Snapped => 7
    case Asks => 6
    case Leads(_) => 5
    case Fetched(_, _) => 4
    case Announced(_, _) => 3
    case Waits(_, _) => 3
    case Succeeded(_, _) => 1
    case Failed(_) => 2
    case Rechecks => 1
    case Returned(_) => 0
  }

  predicate Closer(x: World, y: World, t: nat) {
    t in x.lookups && t in y.lookups && MovesLeft(y.lookups[t].stage) < MovesLeft(x.lookups[t].stage)
  }

  /** A lookup is answered after at most seven moves of its own, and only a wait for
      an open fetch ever holds it up. */
  lemma LookupsFinish(x: World, t: nat)
    requires Inv(x) && t in x.lookups && !x.lookups[t].stage.Returned?
    requires x.lookups[t].stage.Waits? ==> x.lookups[t].stage.i < |x.attempts| && x.attempts[x.lookups[t].stage.i].closed
    ensures Closer(x, Step(x, NextMove(x, t)), t)
  {
    assert LookupHolds(x, t);
    MoveIsMade(x, t);
  }

  lemma MoveIsMade(x: World, t: nat)
    requires t in x.lookups && !x.lookups[t].stage.Returned?
    requires x.lookups[t].stage.Fetched? || x.lookups[t].stage.Announced? || x.lookups[t].stage.Waits? ==> x.lookups[t].stage.i < |x.attempts|
    requires x.lookups[t].stage.Waits? ==> x.attempts[x.lookups[t].stage.i].closed
    ensures Closer(x, Step(x, NextMove(x, t)), t)
  {
    match x.lookups[t].stage
    case Snapped => FreshCheckMoves(x, t);
    case Asks => EntryMoves(x, t);
    case Leads(_) => FetchMoves(x, t);
    case Fetched(_, _) => FetchMoves(x, t);
    case Announced(_, _) => FetchMoves(x, t);
    case Waits(_, _) => WaiterMoves(x, t);
    case _ => ReaderMoves(x, t);
  }

  lemma FreshCheckMoves(x: World, t: nat)
    requires At(x, t, Snapped)
    ensures Closer(x, ChecksFresh(x, t), t)
  {
  }

  lemma EntryMoves(x: World, t: nat)
    requires At(x, t, Asks)
    ensures Closer(x, Enters(x, t, 0), t)
  {
  }

  lemma FetchMoves(x: World, t: nat)
    requires t in x.lookups
    ensures x.lookups[t].stage.Leads? ==> Closer(x, Replies(x, t, None), t)
    ensures x.lookups[t].stage.Fetched? && x.lookups[t].stage.i < |x.attempts| ==> Closer(x, Publishes(x, t), t)
    ensures x.lookups[t].stage.Announced? && x.lookups[t].stage.i < |x.attempts| ==> Closer(x, Closes(x, t), t)
  {
  }

  lemma WaiterMoves(x: World, t: nat)
    requires t in x.lookups && x.lookups[t].stage.Waits? && x.lookups[t].stage.i < |x.attempts| && x.attempts[x.lookups[t].stage.i].closed
    ensures Closer(x, Wakes(x, t), t)
  {
  }

  lemma ReaderMoves(x: World, t: nat)
    requires t in x.lookups
    ensures x.lookups[t].stage.Succeeded? ==> Closer(x, ReadsKey(x, t), t)
    ensures x.lookups[t].stage.Failed? ==> Closer(x, ServesStale(x, t), t)
    ensures x.lookups[t].stage.Rechecks? ==> Closer(x, RechecksCeiling(x, t), t)
  {
  }

  function LeaderFinishes(x: World, o: nat): World {
    Step(Step(Step(x, Reply(o, None)), Publish(o)), CloseDone(o))
  }

  lemma LeaderCanClose(x: World, i: nat, t: nat)
    requires i < |x.attempts| && LeaderHolds(x, i) && !x.attempts[i].closed
    requires t in x.lookups && t != x.attempts[i].leader
    ensures var y := LeaderFinishes(x, x.attempts[i].leader);
      |y.attempts| == |x.attempts| && y.attempts[i].closed && t in y.lookups && y.lookups[t] == x.lookups[t]
  {
    var o := x.attempts[i].leader;
    var x1 := Step(x, Reply(o, None));
    assert |x1.attempts| == |x.attempts| && (x1.lookups[o].stage.Fetched? || x1.lookups[o].stage.Announced?) && x1.lookups[o].stage.i == i;
    var x2 := Step(x1, Publish(o));
    assert |x2.attempts| == |x.attempts| && x2.lookups[o].stage.Announced? && x2.lookups[o].stage.i == i;
  }

  /** Nobody waits for a fetch that no thread is running, and the thread running
      it can always release the waiter. */
  lemma WaiterIsReleased(x: World, t: nat)
    requires Inv(x) && t in x.lookups && x.lookups[t].stage.Waits?
    requires LookupHolds(x, t) && !x.attempts[x.lookups[t].stage.i].closed
    ensures exists o: nat :: o != t && t in LeaderFinishes(x, o).lookups &&
                             !Wakes(LeaderFinishes(x, o), t).lookups[t].stage.Waits?
  {
    var i := x.lookups[t].stage.i;
    assert AttemptHolds(x, i);
    var o := x.attempts[i].leader;
    LeaderCanClose(x, i, t);
    ClosedWakes(LeaderFinishes(x, o), t);
  }

  lemma ClosedWakes(y: World, t: nat)
    requires t in y.lookups && y.lookups[t].stage.Waits?
    requires y.lookups[t].stage.i < |y.attempts| && y.attempts[y.lookups[t].stage.i].closed
    ensures t in Wakes(y, t).lookups && !Wakes(y, t).lookups[t].stage.Waits?
  {
  }

  function Admitted(b: Basis): nat {
    if b.Checked? then b.at else b.joined
  }

  /** Every key handed out was brought by a real fetch, which finished after the
      lookup began or at most a day before the moment the key was admitted. */
  ghost predicate WithinCeiling(x: World) {
    forall t: nat :: t in x.lookups && x.lookups[t].stage.Returned? && x.lookups[t].stage.answer.Key? ==>
      var Key(key, source, basis) := x.lookups[t].stage.answer;
      && Vouches(x, source, x.lookups[t].kid, key)
      && var vouched := x.attempts[source].installedAt.value;
         vouched >= x.lookups[t].began || Admitted(basis) - vouched <= STALE_CEILING
  }

  /** No fetch took longer than `d` from installing its keys to publishing its result. */
  ghost predicate PublishedWithin(x: World, d: nat) {
    forall i: nat :: Installed(x, i) && Published(x, i) ==>
      x.attempts[i].publishedAt.value - x.attempts[i].installedAt.value <= d
  }

  ghost predicate Holds(now: nat, events: seq<Event>, d: nat) {
    PublishedWithin(Run(Empty(now), events), d) ==> WithinCeiling(Run(Empty(now), events))
  }

  lemma PromptRunsKeepTheCeiling(now: nat, events: seq<Event>, d: nat)
    requires d <= STALE_CEILING
    ensures Holds(now, events, d)
  {
    InvAlways(Empty(now), events);
    var y := Run(Empty(now), events);
    if PublishedWithin(y, d) {
      forall t: nat | t in y.lookups && y.lookups[t].stage.Returned? && y.lookups[t].stage.answer.Key?
        ensures
          var Key(key, source, basis) := y.lookups[t].stage.answer;
          && Vouches(y, source, y.lookups[t].kid, key)
          && var vouched := y.attempts[source].installedAt.value;
             vouched >= y.lookups[t].began || Admitted(basis) - vouched <= STALE_CEILING
      {
        assert LookupHolds(y, t);
        var basis := y.lookups[t].stage.answer.basis;
        if basis.Refreshed? { assert Installed(y, basis.i) && Published(y, basis.i); }
      }
    }
  }

  /** A fetch installs its keys and its thread then stalls for `d`. */
  function Stalls(d: nat): seq<Event> {
    [Begin(0, "k"), CheckFresh(0), Enter(0, 0), Reply(0, Some(map["k" := "v"])), Tick(d)]
  }

  /** A second lookup joins it, and the first thread goes on. */
  function Joins(): seq<Event> {
    [Begin(1, "k"), CheckFresh(1), Enter(1, 0), Publish(0)]
  }

  function Serves(): seq<Event> {
    [CloseDone(0), Wake(1), ReadKey(1)]
  }

  lemma {:induction false} RunAppend(x: World, a: seq<Event>, b: seq<Event>)
    ensures Run(x, a + b) == Run(Run(x, a), b)
    decreases |a|
  {
    if a == [] {
      assert a + b == b;
    } else {
      assert (a + b)[1..] == a[1..] + b;
      RunAppend(Step(x, a[0]), a[1..], b);
    }
  }

  lemma RunCons(x: World, e: Event, rest: seq<Event>)
    ensures Run(x, [e] + rest) == Run(Step(x, e), rest)
  {
    assert ([e] + rest)[1..] == rest;
  }

  lemma RunFour(x: World, a: Event, b: Event, c: Event, d: Event)
    ensures Run(x, [a, b, c, d]) == Step(Step(Step(Step(x, a), b), c), d)
  {
    RunCons(x, a, [b, c, d]);
    RunCons(Step(x, a), b, [c, d]);
    RunCons(Step(Step(x, a), b), c, [d]);
    RunCons(Step(Step(Step(x, a), b), c), d, []);
    assert [a] + [b, c, d] == [a, b, c, d] && [b] + [c, d] == [b, c, d] && [c] + [d] == [c, d] && [d] + [] == [d];
  }

  function Stalled(d: nat): World {
    World(d, map["k" := "v"], Some(0), Some(0), true, 0, false, false,
          [Attempt(0, 0, Some(0), map["k" := "v"], None, false)], 0, 0,
          map[0 := Lookup("k", 0, None, 0, None, Some(0), None, Fetched(0, true))])
  }

  function Joined(d: nat): World {
    World(d, map["k" := "v"], Some(0), Some(0), false, 0, false, false,
          [Attempt(0, 0, Some(0), map["k" := "v"], Some(d), false)], 0, 0,
          map[0 := Lookup("k", 0, None, 0, None, Some(0), None, Announced(0, true)),
              1 := Lookup("k", d, Some("v"), 0, Some(0), Some(d), None, Waits(0, d))])
  }

  lemma AfterStalls(d: nat)
    ensures Run(Empty(0), Stalls(d)) == Stalled(d)
  {
    RunCons(Empty(0), Begin(0, "k"), [CheckFresh(0), Enter(0, 0), Reply(0, Some(map["k" := "v"])), Tick(d)]);
    RunFour(Step(Empty(0), Begin(0, "k")), CheckFresh(0), Enter(0, 0), Reply(0, Some(map["k" := "v"])), Tick(d));
    assert Stalls(d) == [Begin(0, "k")] + [CheckFresh(0), Enter(0, 0), Reply(0, Some(map["k" := "v"])), Tick(d)];
  }

  lemma AfterJoins(d: nat)
    requires d > STALE_CEILING
    ensures Run(Stalled(d), Joins()) == Joined(d)
  {
    RunFour(Stalled(d), Begin(1, "k"), CheckFresh(1), Enter(1, 0), Publish(0));
    SecondAsks(d);
    var x2 := Step(Step(Stalled(d), Begin(1, "k")), CheckFresh(1));
    var x3 := Step(x2, Enter(1, 0));
    assert x3 == Goto(x2, 1, Waits(0, d));
  }

  lemma SecondAsks(d: nat)
    requires d > STALE_CEILING
    ensures Step(Step(Stalled(d), Begin(1, "k")), CheckFresh(1)) ==
              Moved(Stalled(d), 1, Lookup("k", d, Some("v"), 0, Some(0), Some(d), None, Asks))
  {
    var x1 := Step(Stalled(d), Begin(1, "k"));
    assert x1.lookups[1] == Lookup("k", d, Some("v"), 0, Some(0), None, None, Snapped);
  }

  lemma AfterServes(d: nat)
    ensures var y := Run(Joined(d), Serves());
      && y.attempts == [Attempt(0, 0, Some(0), map["k" := "v"], Some(d), true)]
      && 1 in y.lookups && y.lookups[1] == Lookup("k", d, Some("v"), 0, Some(0), Some(d), None, Returned(Key("v", 0, Refreshed(0, d, d))))
  {
    var x0 := Joined(d);
    RunCons(x0, CloseDone(0), [Wake(1), ReadKey(1)]);
    RunCons(Step(x0, CloseDone(0)), Wake(1), [ReadKey(1)]);
    RunCons(Step(Step(x0, CloseDone(0)), Wake(1)), ReadKey(1), []);
    assert Serves() == [CloseDone(0)] + [Wake(1), ReadKey(1)] && [Wake(1), ReadKey(1)] == [Wake(1)] + [ReadKey(1)] && [ReadKey(1)] == [ReadKey(1)] + [];
  }

  lemma OldKeyServed(y: World, d: nat)
    requires d > STALE_CEILING
    requires y.attempts == [Attempt(0, 0, Some(0), map["k" := "v"], Some(d), true)]
    requires 1 in y.lookups && y.lookups[1] == Lookup("k", d, Some("v"), 0, Some(0), Some(d), None, Returned(Key("v", 0, Refreshed(0, d, d))))
    ensures PublishedWithin(y, d) && !WithinCeiling(y)
  {
    assert y.lookups[1].stage.answer.Key?;
  }

  lemma LatePublicationBreaksTheCeiling(d: nat)
    requires d > STALE_CEILING
    ensures !Holds(0, Stalls(d) + (Joins() + Serves()), d)
  {
    RunAppend(Empty(0), Stalls(d), Joins() + Serves());
    AfterStalls(d);
    RunAppend(Stalled(d), Joins(), Serves());
    AfterJoins(d);
    AfterServes(d);
    OldKeyServed(Run(Joined(d), Serves()), d);
  }

  /** The one-day trust ceiling covers every key handed out, in every run, if and
      only if no thread stalls longer than a day between installing a key set and
      publishing the refresh: a follower of a published refresh checks no age. */
  lemma CeilingHoldsIffPublishedInTime(d: nat)
    ensures (forall now: nat, events: seq<Event> :: Holds(now, events, d)) <==> d <= STALE_CEILING
  {
    if d <= STALE_CEILING {
      forall now: nat, events: seq<Event> ensures Holds(now, events, d) { PromptRunsKeepTheCeiling(now, events, d); }
    } else {
      LatePublicationBreaksTheCeiling(d);
    }
  }
}
