/** The registry of identity providers (auth_idp.go): profiles are persisted
    before they are published, together with the providers compiled from them.

    A live provider is represented by the profile it was compiled from.
 */
module IdpRegistry {
  import opened TwoCopies
  import opened Wrappers

  datatype Kind = Oidc | Saml | Ldap
  {
    predicate Interactive() {
      Oidc? || Saml?
    }

    predicate CredentialCapable() {
      Oidc? || Ldap?
    }
  }

  datatype Profile = Profile(id: string, name: string, kind: Kind, domains: seq<string>, enabled: bool, priority: int, config: string)

  /** Validation of one profile (the two write paths differ), compilation,
      reserved names and case-insensitive comparison. */
  datatype Env = Env(
    upsertValid: Profile -> bool, bulkValid: Profile -> bool, compiles: Profile -> bool,
    reserved: Profile -> bool, fold: (string, string) -> bool)

  datatype Registry = Registry(profiles: seq<Profile>, live: map<string, Profile>, disk: seq<Profile>)

  // ─── Transactions ─────────────────────────────────────────────────────────

  function Position(profiles: seq<Profile>, id: string): (i: nat)
    ensures i <= |profiles| && (i < |profiles| ==> profiles[i].id == id) && forall j :: 0 <= j < i ==> profiles[j].id != id
  {
    if profiles == [] || profiles[0].id == id then 0 else 1 + Position(profiles[1..], id)
  }

  function Placed(profiles: seq<Profile>, p: Profile): seq<Profile> {
    var i := Position(profiles, p.id);
    if i < |profiles| then profiles[i := p] else profiles + [p]
  }

  function Cut(profiles: seq<Profile>, i: nat): seq<Profile>
    requires i < |profiles|
  {
    profiles[..i] + profiles[i + 1..]
  }

  /** The providers compiled in list order from the profiles `keep` lets through. */
  function Compiled(profiles: seq<Profile>, keep: Profile -> bool): map<string, Profile> {
    if profiles == [] then map[]
    else
      var front, last := profiles[..|profiles| - 1], profiles[|profiles| - 1];
      if last.enabled && keep(last) then Compiled(front, keep)[last.id := last] else Compiled(front, keep)
  }

  function Kept(env: Env, profiles: seq<Profile>): seq<Profile> {
    if profiles == [] then []
    else Kept(env, profiles[..|profiles| - 1]) + if env.reserved(profiles[|profiles| - 1]) then [] else [profiles[|profiles| - 1]]
  }

  /** Persist, then publish; a reported failure publishes nothing. */
  function Commit(x: Registry, profiles: seq<Profile>, live: map<string, Profile>, w: Write): Registry {
    match w
    case Written => Registry(profiles, live, profiles)
    case NotWritten => x
    case ReplacedNotSynced => x.(disk := profiles)
  }

  /** A profile without an id gets a random one. */
  function WithId(p: Profile, randomId: string): Profile {
    if p.id == "" then p.(id := randomId) else p
  }

  datatype Event = Upserts(p: Profile, randomId: string, w: Write) | Deletes(id: string, w: Write) | Replaces(list: seq<Profile>, w: Write) | Restarts

  predicate Accepts(env: Env, x: Registry, e: Event) {
    match e
    case Upserts(p, randomId, _) =>
      var q := WithId(p, randomId);
      !env.reserved(q) && env.upsertValid(q) && (q.enabled ==> env.compiles(q))
    case Deletes(id, _) => Position(x.profiles, id) < |x.profiles|
    case Replaces(list, _) =>
      forall i :: 0 <= i < |list| ==> !env.reserved(list[i]) && env.bulkValid(list[i]) && (list[i].enabled ==> env.compiles(list[i]))
    case Restarts => true
  }

  function Step(env: Env, x: Registry, e: Event): Registry {
    if !Accepts(env, x, e) then x
    else
      match e
      case Upserts(p, randomId, w) =>
        var q := WithId(p, randomId);
        Commit(x, Placed(x.profiles, q), if q.enabled then x.live[q.id := q] else x.live - {q.id}, w)
      case Deletes(id, w) => Commit(x, Cut(x.profiles, Position(x.profiles, id)), x.live - {id}, w)
      case Replaces(list, w) => Commit(x, list, Compiled(list, p => true), w)
      case Restarts => var kept := Kept(env, x.disk); Registry(kept, Compiled(kept, env.compiles), x.disk)
  }

  function Run(env: Env, x: Registry, events: seq<Event>): Registry
    decreases |events|
  {
    if events == [] then x else Run(env, Step(env, x, events[0]), events[1..])
  }

  class IdPRegistry {
    const env: Env
    var profiles: seq<Profile>
    var live: map<string, Profile>
    var disk: seq<Profile>

    function View(): Registry
      reads this
    {
      Registry(profiles, live, disk)
    }

    method Persist(next: seq<Profile>, w: Write) returns (ok: bool)
      modifies this`disk
      ensures ok <==> w.Written?
      ensures disk == if w.NotWritten? then old(disk) else next
    {
      if !w.NotWritten? { disk := next; }
      ok := w.Written?;
    }

    method Upsert(input: Profile, randomId: string, w: Write) returns (ok: bool)
      modifies this
      ensures View() == Step(env, old(View()), Upserts(input, randomId, w))
      ensures ok <==> Accepts(env, old(View()), Upserts(input, randomId, w)) && w.Written?
    {
      var p := input;
      if p.id == "" { p := p.(id := randomId); }
      if env.reserved(p) || !env.upsertValid(p) { return false; }
      if p.enabled && !env.compiles(p) { return false; }
      var next, i := profiles, 0;
      while i < |profiles| && profiles[i].id != p.id
        invariant 0 <= i <= |profiles| && forall j :: 0 <= j < i ==> profiles[j].id != p.id
      {
        i := i + 1;
      }
      assert i == Position(profiles, p.id);
      next := if i < |profiles| then profiles[i := p] else profiles + [p];
      var nextLive := if p.enabled then live[p.id := p] else live - {p.id};
      ok := Persist(next, w);
      if ok { profiles, live := next, nextLive; }
    }

    method Delete(id: string, w: Write) returns (ok: bool)
      modifies this
      ensures View() == Step(env, old(View()), Deletes(id, w))
      ensures ok <==> Accepts(env, old(View()), Deletes(id, w)) && w.Written?
    {
      var i := 0;
      while i < |profiles| && profiles[i].id != id
        invariant 0 <= i <= |profiles| && forall j :: 0 <= j < i ==> profiles[j].id != id
      {
        i := i + 1;
      }
      assert i == Position(profiles, id);
      if i == |profiles| { return false; }
      var next := profiles[..i] + profiles[i + 1..];
      ok := Persist(next, w);
      if ok { profiles, live := next, live - {id}; }
    }

    method ReplaceAll(list: seq<Profile>, w: Write) returns (ok: bool)
      modifies this
      ensures View() == Step(env, old(View()), Replaces(list, w))
      ensures ok <==> Accepts(env, old(View()), Replaces(list, w)) && w.Written?
    {
      var nextLive: map<string, Profile>, i := map[], 0;
      while i < |list|
        invariant 0 <= i <= |list| && nextLive == Compiled(list[..i], p => true)
        invariant forall k :: 0 <= k < i ==> !env.reserved(list[k]) && env.bulkValid(list[k]) && (list[k].enabled ==> env.compiles(list[k]))
        invariant View() == old(View())
      {
        if env.reserved(list[i]) || !env.bulkValid(list[i]) || (list[i].enabled && !env.compiles(list[i])) { return false; }
        assert list[..i + 1][..i] == list[..i];
        if list[i].enabled { nextLive := nextLive[list[i].id := list[i]]; }
        i := i + 1;
      }
      assert list[..i] == list;
      ok := Persist(list, w);
      if ok { profiles, live := list, nextLive; }
    }

    /** The browser-SSO destination for an e-mail domain. */
    method RouteByDomain(domain: string) returns (r: Option<Profile>)
      ensures r.None? ==> forall i :: 0 <= i < |profiles| ==> !Routes(env, View(), domain, i)
      ensures r.Some? ==> exists i :: RoutesBest(env, View(), domain, i) && r.value == live[profiles[i].id]
    {
      var best, i := -1, 0;
      while i < |profiles|
        invariant 0 <= i <= |profiles| && -1 <= best < i
        invariant best < 0 ==> forall j :: 0 <= j < i ==> !Routes(env, View(), domain, j)
        invariant best >= 0 ==> Routes(env, View(), domain, best) && forall j :: 0 <= j < i && Routes(env, View(), domain, j) ==>
          Effective(profiles[best]) < Effective(profiles[j]) || (Effective(profiles[best]) == Effective(profiles[j]) && best <= j)
      {
        var p := profiles[i];
        if p.enabled && p.kind.Interactive() {
          var d := 0;
          while d < |p.domains| && !(env.fold(p.domains[d], domain) && p.id in live)
            invariant 0 <= d <= |p.domains|
            invariant forall k :: 0 <= k < d ==> !(env.fold(p.domains[k], domain) && p.id in live)
          {
            d := d + 1;
          }
          if d < |p.domains| && (best < 0 || Effective(p) < Effective(profiles[best])) { best := i; }
        }
        i := i + 1;
      }
      return if best < 0 then None else Some(live[profiles[best].id]);
    }

    /** The live providers of the enabled profiles `want` selects, in profile order. */
    method Providers(want: Kind -> bool) returns (out: seq<Profile>)
      ensures forall q :: q in out <==> exists i :: 0 <= i < |profiles| && Offers(View(), want, i) && q == live[profiles[i].id]
    {
      out := [];
      for i := 0 to |profiles|
        invariant forall q :: q in out <==> exists k :: 0 <= k < i && Offers(View(), want, k) && q == live[profiles[k].id]
      {
        if profiles[i].enabled && want(profiles[i].kind) && profiles[i].id in live { out := out + [live[profiles[i].id]]; }
      }
    }

    /** The allocation-free probe: true exactly when that list is not empty. */
    method HasProvider(want: Kind -> bool) returns (b: bool)
      ensures b <==> exists i :: 0 <= i < |profiles| && Offers(View(), want, i)
    {
      for i := 0 to |profiles|
        invariant forall k :: 0 <= k < i ==> !Offers(View(), want, k)
      {
        if profiles[i].enabled && want(profiles[i].kind) && profiles[i].id in live {
          assert Offers(View(), want, i);
          return true;
        }
      }
      return false;
    }

    /** The credential probe looks at profiles only. */
    method HasEnabledCredentialProvider() returns (b: bool)
      ensures b <==> exists i :: 0 <= i < |profiles| && EnabledCredential(View(), i)
    {
      for i := 0 to |profiles|
        invariant forall k :: 0 <= k < i ==> !EnabledCredential(View(), k)
      {
        if profiles[i].enabled && profiles[i].kind.CredentialCapable() {
          assert EnabledCredential(View(), i);
          return true;
        }
      }
      return false;
    }
  }

  // ─── Selection ────────────────────────────────────────────────────────────

  /** Priority 0 means last. */
  function Effective(p: Profile): int {
    if p.priority == 0 then 0x7FFF_FFFF else p.priority
  }

  predicate Routes(env: Env, x: Registry, domain: string, i: int) {
    && 0 <= i < |x.profiles| && x.profiles[i].enabled && x.profiles[i].kind.Interactive() && x.profiles[i].id in x.live
    && exists d :: 0 <= d < |x.profiles[i].domains| && env.fold(x.profiles[i].domains[d], domain)
  }

  /** The first among the matches of lowest priority value. */
  ghost predicate RoutesBest(env: Env, x: Registry, domain: string, i: int) {
    && Routes(env, x, domain, i)
    && forall j :: 0 <= j < |x.profiles| && Routes(env, x, domain, j) ==>
         Effective(x.profiles[i]) < Effective(x.profiles[j]) || (Effective(x.profiles[i]) == Effective(x.profiles[j]) && i <= j)
  }

  /** Without a priority a profile routes last: it is chosen only when no match has
      one, and among those that do the lowest wins. */
  lemma UnprioritisedRoutesLast(env: Env, x: Registry, domain: string, i: int, j: int)
    requires RoutesBest(env, x, domain, i) && Routes(env, x, domain, j) && x.profiles[j].priority < 0x7FFF_FFFF
    ensures x.profiles[j].priority != 0 ==> x.profiles[i].priority != 0 && x.profiles[i].priority <= x.profiles[j].priority
  {
  }

  predicate Offers(x: Registry, want: Kind -> bool, i: int) {
    0 <= i < |x.profiles| && x.profiles[i].enabled && want(x.profiles[i].kind) && x.profiles[i].id in x.live
  }

  predicate EnabledCredential(x: Registry, i: int) {
    0 <= i < |x.profiles| && x.profiles[i].enabled && x.profiles[i].kind.CredentialCapable()
  }

  // ─── Over every run ───────────────────────────────────────────────────────

  /** Every live provider was compiled from a profile that is stored and enabled
      under its id. */
  ghost predicate LiveIsStored(x: Registry) {
    forall id :: id in x.live ==> x.live[id].id == id && x.live[id].enabled && x.live[id] in x.profiles
  }

  lemma {:induction false} CompiledIsStored(profiles: seq<Profile>, keep: Profile -> bool)
    ensures forall id :: id in Compiled(profiles, keep) ==>
              Compiled(profiles, keep)[id].id == id && Compiled(profiles, keep)[id].enabled && Compiled(profiles, keep)[id] in profiles
    decreases |profiles|
  {
    if profiles != [] {
      var front, last := profiles[..|profiles| - 1], profiles[|profiles| - 1];
      assert profiles == front + [last];
      CompiledIsStored(front, keep);
    }
  }

  lemma PlacedKeeps(profiles: seq<Profile>, p: Profile)
    ensures p in Placed(profiles, p)
    ensures forall q :: q in profiles && q.id != p.id ==> q in Placed(profiles, p)
    ensures forall q :: q in Placed(profiles, p) ==> q == p || q in profiles
  {
    var i, next := Position(profiles, p.id), Placed(profiles, p);
    if i < |profiles| { assert next[i] == p; } else { assert next[|profiles|] == p; }
    forall q | q in profiles && q.id != p.id ensures q in next {
      var k :| 0 <= k < |profiles| && profiles[k] == q;
      assert next[k] == q;
    }
  }

  lemma CutKeeps(profiles: seq<Profile>, i: nat)
    requires i < |profiles|
    ensures forall q :: q in profiles && q != profiles[i] ==> q in Cut(profiles, i)
  {
    assert profiles == profiles[..i] + [profiles[i]] + profiles[i + 1..];
  }

  lemma StepKeepsLive(env: Env, x: Registry, e: Event)
    requires LiveIsStored(x)
    ensures LiveIsStored(Step(env, x, e))
  {
    match e
    case Upserts(p, randomId, w) => PlacedKeeps(x.profiles, WithId(p, randomId));
    case Deletes(id, w) =>
      var i := Position(x.profiles, id);
      if i < |x.profiles| { CutKeeps(x.profiles, i); }
    case Replaces(list, w) => CompiledIsStored(list, p => true);
    case Restarts => CompiledIsStored(Kept(env, x.disk), env.compiles);
  }

  /** Over every run of changes, failing writes and restarts, no provider outlives
      the enabled profile it was compiled from. */
  lemma {:induction false} NoProviderOutlivesItsProfile(env: Env, x: Registry, events: seq<Event>)
    requires LiveIsStored(x)
    ensures LiveIsStored(Run(env, x, events))
    decreases |events|
  {
    if events != [] {
      StepKeepsLive(env, x, events[0]);
      NoProviderOutlivesItsProfile(env, Step(env, x, events[0]), events[1..]);
    }
  }

  /** An accepted upsert that lands stores the profile under its id, in the place of
      the first one that had it, leaves every other id alone, and serves it exactly
      when it is enabled. */
  lemma UpsertDoes(env: Env, x: Registry, p: Profile, randomId: string)
    requires Accepts(env, x, Upserts(p, randomId, Written))
    ensures
      var y := Step(env, x, Upserts(p, randomId, Written));
      var q := if p.id == "" then p.(id := randomId) else p;
      && y.disk == y.profiles && q in y.profiles
      && (forall r: Profile :: r.id != q.id ==> (r in y.profiles <==> r in x.profiles))
      && |y.profiles| == |x.profiles| + (if exists r :: r in x.profiles && r.id == q.id then 0 else 1)
      && (if q.enabled then q.id in y.live && y.live[q.id] == q else q.id !in y.live)
      && (forall id :: id != q.id ==> (id in y.live <==> id in x.live) && (id in x.live ==> y.live[id] == x.live[id]))
  {
    var q := WithId(p, randomId);
    PlacedKeeps(x.profiles, q);
    var i := Position(x.profiles, q.id);
    if i < |x.profiles| { assert x.profiles[i] in x.profiles; }
    forall r | r in Placed(x.profiles, q) && r.id != q.id ensures r in x.profiles {}
  }

  /** A delete that lands takes out the first profile of that id and its provider;
      it is refused exactly when there is none. */
  lemma DeleteDoes(env: Env, x: Registry, id: string)
    ensures Accepts(env, x, Deletes(id, Written)) <==> exists r :: r in x.profiles && r.id == id
    ensures
      var y := Step(env, x, Deletes(id, Written));
      Accepts(env, x, Deletes(id, Written)) ==>
        && y.disk == y.profiles && |y.profiles| == |x.profiles| - 1
        && (forall r: Profile :: r.id != id ==> (r in y.profiles <==> r in x.profiles))
        && y.live == x.live - {id}
  {
    var i := Position(x.profiles, id);
    if i < |x.profiles| {
      assert x.profiles[i] in x.profiles;
      CutKeeps(x.profiles, i);
      assert forall r :: r in Cut(x.profiles, i) ==> r in x.profiles;
    }
  }

  /** A bulk replacement that lands stores exactly the list and serves exactly the
      ids with an enabled profile; a start does so for the file's unreserved
      profiles that compile. */
  lemma ReplaceAndStartDo(env: Env, x: Registry, list: seq<Profile>, id: string)
    ensures
      var y := Step(env, x, Replaces(list, Written));
      Accepts(env, x, Replaces(list, Written)) ==>
        && y.profiles == list && y.disk == list
        && (id in y.live <==> exists k :: 0 <= k < |list| && list[k].enabled && list[k].id == id)
    ensures
      var z := Step(env, x, Restarts);
      && z.disk == x.disk && z.profiles == Kept(env, x.disk)
      && (id in z.live <==> exists k :: 0 <= k < |z.profiles| && z.profiles[k].enabled && env.compiles(z.profiles[k]) && z.profiles[k].id == id)
  {
    CompiledKeys(list, p => true, id);
    CompiledKeys(Kept(env, x.disk), env.compiles, id);
  }

  /** The profiles a start keeps: all that are not reserved, in order. */
  lemma {:induction false} KeptIs(env: Env, profiles: seq<Profile>, p: Profile)
    ensures p in Kept(env, profiles) <==> p in profiles && !env.reserved(p)
    decreases |profiles|
  {
    if profiles != [] {
      KeptIs(env, profiles[..|profiles| - 1], p);
      assert profiles == profiles[..|profiles| - 1] + [profiles[|profiles| - 1]];
    }
  }

  // ─── An acknowledged profile ──────────────────────────────────────────────

  /** The profile is stored, and no different one under its id. */
  ghost predicate Alone(profiles: seq<Profile>, q: Profile) {
    q in profiles && forall r :: r in profiles && r.id == q.id ==> r == q
  }

  /** Stored in memory and file, and served if enabled. */
  ghost predicate Served(x: Registry, q: Profile) {
    Alone(x.profiles, q) && Alone(x.disk, q) && if q.enabled then q.id in x.live && x.live[q.id] == q else q.id !in x.live
  }

  /** The event is about other ids. */
  predicate About(e: Event, q: Profile) {
    match e
    case Upserts(p, randomId, _) => WithId(p, randomId).id == q.id
    case Deletes(id, _) => id == q.id
    case Replaces(_, _) => true
    case Restarts => false
  }

  lemma PlacedAlone(profiles: seq<Profile>, p: Profile, q: Profile)
    requires Alone(profiles, q) && p.id != q.id
    ensures Alone(Placed(profiles, p), q)
  {
    PlacedKeeps(profiles, p);
  }

  lemma CutAlone(profiles: seq<Profile>, i: nat, q: Profile)
    requires Alone(profiles, q) && i < |profiles| && profiles[i].id != q.id
    ensures Alone(Cut(profiles, i), q)
  {
    CutKeeps(profiles, i);
    assert forall r :: r in Cut(profiles, i) ==> r in profiles;
  }

  lemma RestartServes(env: Env, x: Registry, q: Profile)
    requires Alone(x.disk, q) && !env.reserved(q) && (q.enabled ==> env.compiles(q))
    ensures Served(Step(env, x, Restarts), q)
  {
    var kept := Kept(env, x.disk);
    forall r ensures r in kept <==> r in x.disk && !env.reserved(r) { KeptIs(env, x.disk, r); }
    CompiledKeys(kept, env.compiles, q.id);
    CompiledIsStored(kept, env.compiles);
    if q.enabled {
      var k :| 0 <= k < |kept| && kept[k] == q;
    }
  }

  lemma StepServes(env: Env, x: Registry, e: Event, q: Profile)
    requires Served(x, q) && !About(e, q) && !env.reserved(q) && (q.enabled ==> env.compiles(q))
    ensures Served(Step(env, x, e), q)
  {
    match e
    case Upserts(p, randomId, _) => PlacedAlone(x.profiles, WithId(p, randomId), q);
    case Deletes(id, _) => if Position(x.profiles, id) < |x.profiles| { CutAlone(x.profiles, Position(x.profiles, id), q); }
    case Replaces(_, _) =>
    case Restarts => RestartServes(env, x, q);
  }

  lemma {:induction false} ServedAlways(env: Env, x: Registry, events: seq<Event>, q: Profile)
    requires Served(x, q) && !env.reserved(q) && (q.enabled ==> env.compiles(q))
    requires forall i :: 0 <= i < |events| ==> !About(events[i], q)
    ensures Served(Run(env, x, events), q)
    decreases |events|
  {
    if events != [] {
      StepServes(env, x, events[0], q);
      ServedAlways(env, Step(env, x, events[0]), events[1..], q);
    }
  }

  /** An acknowledged profile stays: over every later run of changes to other ids,
      failing writes and restarts it is stored, alone under its id, in memory and
      file, and is served exactly when enabled, if at the upsert no second profile
      carried the id. */
  lemma AcknowledgedProfileStays(env: Env, x: Registry, p: Profile, randomId: string, events: seq<Event>)
    requires Accepts(env, x, Upserts(p, randomId, Written))
    requires forall i, j :: 0 <= i < j < |x.profiles| && x.profiles[i].id == WithId(p, randomId).id ==> x.profiles[j].id != x.profiles[i].id
    requires forall i :: 0 <= i < |events| ==> !About(events[i], WithId(p, randomId))
    ensures Served(Run(env, Step(env, x, Upserts(p, randomId, Written)), events), WithId(p, randomId))
  {
    var q := WithId(p, randomId);
    var next := Placed(x.profiles, q);
    PlacedKeeps(x.profiles, q);
    var i := Position(x.profiles, q.id);
    assert forall k :: 0 <= k < |x.profiles| && k != i ==> next[k] == x.profiles[k] && x.profiles[k].id != q.id;
    assert Alone(next, q);
    ServedAlways(env, Step(env, x, Upserts(p, randomId, Written)), events, q);
  }

  function EffectOf(env: Env, x: Registry, e: Event): Effect<seq<Profile>> {
    if !Accepts(env, x, e) then Nothing
    else
      match e
      case Upserts(p, randomId, w) => Writes(Placed(x.profiles, WithId(p, randomId)), w)
      case Deletes(id, w) => Writes(Cut(x.profiles, Position(x.profiles, id)), w)
      case Replaces(list, w) => Writes(list, w)
      case Restarts => MemoryOnly(Kept(env, x.disk))
  }

  function Effects(env: Env, x: Registry, events: seq<Event>): (es: seq<Effect<seq<Profile>>>)
    ensures |es| == |events|
    decreases |events|
  {
    if events == [] then [] else [EffectOf(env, x, events[0])] + Effects(env, Step(env, x, events[0]), events[1..])
  }

  lemma {:induction false} RunIsEffects(env: Env, x: Registry, events: seq<Event>)
    ensures ApplyAll(Copies(x.profiles, x.disk), Effects(env, x, events)) ==
              Copies(Run(env, x, events).profiles, Run(env, x, events).disk)
    decreases |events|
  {
    if events != [] {
      RunIsEffects(env, Step(env, x, events[0]), events[1..]);
      assert Effects(env, x, events)[1..] == Effects(env, Step(env, x, events[0]), events[1..]);
    }
  }

  /** From equal copies, the published and the persisted profiles are equal after a
      run if and only if no step parted them for good: a different list saved but
      reported as failed, or a start that dropped a reserved profile, with nothing
      that touches either copy since. */
  lemma PublishedEqualsPersistedIff(env: Env, x: Registry, events: seq<Event>)
    requires x.profiles == x.disk
    ensures
      var y := Run(env, x, events);
      y.profiles == y.disk <==> !exists n: nat :: PartedAt(Copies(x.profiles, x.disk), Effects(env, x, events), n)
  {
    RunIsEffects(env, x, events);
    EqualIffNotParted(Copies(x.profiles, x.disk), Effects(env, x, events));
  }

  predicate NoneReserved(env: Env, profiles: seq<Profile>) {
    forall i :: 0 <= i < |profiles| ==> !env.reserved(profiles[i])
  }

  lemma {:induction false} KeptDrops(env: Env, profiles: seq<Profile>)
    ensures NoneReserved(env, Kept(env, profiles)) && |Kept(env, profiles)| <= |profiles|
    ensures NoneReserved(env, profiles) <==> |Kept(env, profiles)| == |profiles|
    ensures NoneReserved(env, profiles) ==> Kept(env, profiles) == profiles
    decreases |profiles|
  {
    if profiles != [] { KeptDrops(env, profiles[..|profiles| - 1]); }
  }

  /** A start publishes exactly the file if and only if the file holds no reserved
      profile; the file itself is not rewritten. */
  lemma StartPublishesFileIff(env: Env, x: Registry)
    ensures Step(env, x, Restarts).profiles == Step(env, x, Restarts).disk <==> NoneReserved(env, x.disk)
  {
    KeptDrops(env, x.disk);
  }

  lemma StepKeepsUnreserved(env: Env, x: Registry, e: Event)
    requires NoneReserved(env, x.profiles) && NoneReserved(env, x.disk)
    ensures NoneReserved(env, Step(env, x, e).profiles) && NoneReserved(env, Step(env, x, e).disk)
    ensures e.Restarts? ==> EffectOf(env, x, e) == MemoryOnly(x.disk)
  {
    match e
    case Upserts(p, randomId, _) => PlacedUnreserved(env, x.profiles, WithId(p, randomId));
    case Deletes(id, _) => if Position(x.profiles, id) < |x.profiles| { CutUnreserved(env, x.profiles, Position(x.profiles, id)); }
    case Replaces(_, _) =>
    case Restarts => KeptDrops(env, x.disk);
  }

  lemma PlacedUnreserved(env: Env, profiles: seq<Profile>, p: Profile)
    requires NoneReserved(env, profiles)
    ensures !env.reserved(p) ==> NoneReserved(env, Placed(profiles, p))
  {
  }

  lemma CutUnreserved(env: Env, profiles: seq<Profile>, i: nat)
    requires NoneReserved(env, profiles) && i < |profiles|
    ensures NoneReserved(env, Cut(profiles, i))
  {
  }

  /** Nothing writes a reserved profile, so after a start on a file without any, no
      later start parts the copies: only a save reported as failed does. */
  lemma {:induction false} OnlyFailedSavesPart(env: Env, x: Registry, events: seq<Event>, n: nat)
    requires NoneReserved(env, x.profiles) && NoneReserved(env, x.disk)
    requires PartedAt(Copies(x.profiles, x.disk), Effects(env, x, events), n)
    ensures Effects(env, x, events)[n].HalfSaved?
    decreases |events|
  {
    var c, es, y := Copies(x.profiles, x.disk), Effects(env, x, events), Step(env, x, events[0]);
    var rest := Effects(env, y, events[1..]);
    StepKeepsUnreserved(env, x, events[0]);
    assert es[1..] == rest;
    if n > 0 {
      assert es[..n][1..] == rest[..n - 1];
      assert Apply(c, es[0]) == Copies(y.profiles, y.disk);
      assert forall m :: n - 1 < m < |rest| ==> rest[m] == es[m + 1];
      OnlyFailedSavesPart(env, y, events[1..], n - 1);
    }
  }

  /** Every enabled profile is served by its own provider. */
  ghost predicate ServesAll(x: Registry) {
    forall i :: 0 <= i < |x.profiles| && x.profiles[i].enabled ==> x.profiles[i].id in x.live && x.live[x.profiles[i].id] == x.profiles[i]
  }

  /** Enabled profiles that share an id are the same profile. */
  ghost predicate EnabledIdsUnique(profiles: seq<Profile>) {
    forall i, j :: 0 <= i < |profiles| && 0 <= j < |profiles| && profiles[i].enabled && profiles[j].enabled && profiles[i].id == profiles[j].id ==>
      profiles[i] == profiles[j]
  }

  lemma {:induction false} CompiledKeys(profiles: seq<Profile>, keep: Profile -> bool, id: string)
    ensures id in Compiled(profiles, keep) <==>
              exists k :: 0 <= k < |profiles| && profiles[k].enabled && keep(profiles[k]) && profiles[k].id == id
    decreases |profiles|
  {
    if profiles != [] {
      var front, last := profiles[..|profiles| - 1], profiles[|profiles| - 1];
      CompiledKeys(front, keep, id);
      assert forall i :: 0 <= i < |front| ==> profiles[i] == front[i];
      if last.enabled && keep(last) && last.id == id { assert profiles[|front|] == last; }
    }
  }

  /** A bulk replacement serves every enabled profile by its own provider if and
      only if no two different enabled profiles share an id, which it does not
      check. */
  lemma ReplacementServesAllIff(list: seq<Profile>)
    ensures ServesAll(Registry(list, Compiled(list, p => true), list)) <==> EnabledIdsUnique(list)
  {
    var live := Compiled(list, p => true);
    forall i | 0 <= i < |list| && list[i].enabled ensures list[i].id in live { CompiledKeys(list, p => true, list[i].id); }
    CompiledIsStored(list, p => true);
    if EnabledIdsUnique(list) {
      forall i | 0 <= i < |list| && list[i].enabled ensures live[list[i].id] == list[i] {
        var q := live[list[i].id];
        var k :| 0 <= k < |list| && list[k] == q;
      }
    } else {
      var i, j :| 0 <= i < |list| && 0 <= j < |list| && list[i].enabled && list[j].enabled && list[i].id == list[j].id && list[i] != list[j];
      assert live[list[i].id] != list[i] || live[list[j].id] != list[j];
    }
  }

  /** After a start, the credential probe and the list of live credential
      providers agree if and only if no credential profile is enabled or some
      enabled one has a profile of its id that compiled. */
  lemma CredentialProbeAgreesIff(env: Env, x: Registry)
    ensures
      var y := Step(env, x, Restarts);
      ((exists i :: EnabledCredential(y, i)) <==> (exists i :: EnabledCredential(y, i) && y.profiles[i].id in y.live)) <==>
        ((exists i :: EnabledCredential(y, i)) ==> exists i :: EnabledCredential(y, i) && CompilesUnder(env, y.profiles, y.profiles[i].id))
  {
    var y := Step(env, x, Restarts);
    forall i | EnabledCredential(y, i)
      ensures y.profiles[i].id in y.live <==> CompilesUnder(env, y.profiles, y.profiles[i].id)
    {
      CompiledKeys(y.profiles, env.compiles, y.profiles[i].id);
    }
  }

  predicate CompilesUnder(env: Env, profiles: seq<Profile>, id: string) {
    exists k :: 0 <= k < |profiles| && profiles[k].enabled && env.compiles(profiles[k]) && profiles[k].id == id
  }
}
