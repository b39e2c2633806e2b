/** The renew / revoke / delete protocol between the appliance and one Sluice
    instance, as a transition system (cdr_health.go, cdr_lineage.go, cdr_ui.go).

    `Sluice` is what the remote server knows.  `mem` and `disk` are the lineage
    in memory and in cdr_instances.json: a save that reports an error may still
    have replaced the file, so the two can differ, and a crash reloads `disk`.
    `doing` is the ceremony holding the instance's lifecycle lock.  `reported` is
    history: the fingerprints an acknowledged delete has handed to the operator.
 */
module TrustProtocol {
  import opened Wrappers
  import opened Lineage
  import opened InstanceRegistry

  datatype Cred = Cred(fp: string, notAfter: int)

  /** Operation id to the credential issued for it, and the denied fingerprints. */
  datatype Sluice = Sluice(issued: map<string, Cred>, revoked: set<string>)
  {
    predicate Trusts(op: string, now: int) {
      op in issued && issued[op].fp !in revoked && now < issued[op].notAfter
    }
  }

  datatype RevokeOutcome = NoOutcome | OutcomeRevoked | AlreadyRevoked | Tombstoned

  /** The RevokeClient response, or `Failed` for a transport error. */
  datatype RevokeReply = Failed | Reply(outcome: RevokeOutcome, revoked: bool)

  datatype Ceremony =
    | Idle
    | InFlight(s: int, op: string)                         // RenewCert sent
    | Holding(s: int, op: string, cred: Cred, expiry: int) // response arrived
    | Installing(s: int)                                   // staged; writing PEMs
    | Revoking(targets: set<string>, proven: set<string>)

  datatype World = World(
    sluice: Sluice, mem: Option<Instance>, disk: Option<Instance>, doing: Ceremony, now: int, reported: set<string>)

  datatype Event =
    | Tick(d: nat)
    | BeginRenewal(op: string, w: Write)
    | SluiceIssues(cred: Cred)
    | ResponseLost
    | ResponseArrives(parsed: bool)
    | RecordsIssued(w: Write)
    | InstallFails
    | Activates(w: Write)
    | Resolves(s: int, w: Write)
    | SluiceRevokes(fp: string)
    | RecordsRevocation(fp: string, w: Write)
    | BootFinishes(s: int, onDisk: bool, w: Write)
    | OtherInstanceSaves
    | Crash
    | BeginRevoke
    | RevokesTarget(fp: string, acts: bool, reply: RevokeReply, w: Write)
    | AbandonsRevoke
    | PrunesRevoked(w: Write)
    | Deletes(w: Write)

  // ─── One step ─────────────────────────────────────────────────────────────

  function Store(x: World, next: Option<Instance>, w: Write): World {
    match w
    case Written => x.(mem := next, disk := next)
    case NotWritten => x
    case ReplacedNotSynced => x.(disk := next)
  }

  /** One lineage edit; `x.mem` moves only on a clean write. */
  function Edit(x: World, o: LineageOp, w: Write): World
    requires x.mem.Some?
  {
    match Run(o, x.mem.value)
    case Err(_) => x
    case Ok(next) => Store(x, Some(next), w)
  }

  predicate EditOk(x: World, o: LineageOp, w: Write)
    requires x.mem.Some?
  {
    Run(o, x.mem.value).Ok? && w.Written?
  }

  predicate MentionsOp(v: Option<Instance>, op: string) {
    v.Some? && exists g :: g in v.value.gens && g.op == op
  }

  predicate MentionsFp(v: Option<Instance>, fp: string) {
    v.Some? && exists g :: g in v.value.gens && g.fp == fp
  }

  predicate HasRenewing(inst: Instance) {
    exists g :: g in inst.gens && g.state.Renewing?
  }

  /** A freshly minted 128-bit operation id. */
  predicate FreshOp(x: World, op: string) {
    op != "" && op !in x.sluice.issued && !MentionsOp(x.mem, op) && !MentionsOp(x.disk, op)
  }

  /** The digest of a certificate nobody has seen before. */
  predicate FreshCred(x: World, c: Cred) {
    && c.fp != "" && c.notAfter > 0 && c.fp !in x.sluice.revoked
    && (forall op :: op in x.sluice.issued ==> x.sluice.issued[op].fp != c.fp)
    && !MentionsFp(x.mem, c.fp) && !MentionsFp(x.disk, c.fp)
  }

  function LiveFps(inst: Instance, now: int): set<string> {
    set g | g in inst.gens && g.Live(now) && g.fp != "" :: g.fp
  }

  /** The lineage edit the engine's answer for operation `op` leads to. */
  function Resolution(sl: Sluice, s: int, op: string): LineageOp {
    if op in sl.issued then
      RecordOp(s, sl.issued[op].fp, 0, if sl.issued[op].fp in sl.revoked then Revoked else Orphaned)
    else DropOp(s)
  }

  // Each event is a function that changes nothing when it is not enabled.

  function BeginsRenewal(x: World, op: string, w: Write): World {
    if x.mem.None? || !x.doing.Idle? || !FreshOp(x, op) then x
    else
      var o := StageOp(op, x.now, 0);
      Edit(x, o, w).(doing := if EditOk(x, o, w) then InFlight(StagedSeq(x.mem.value, x.now, 0), op) else Idle)
  }

  function Issues(x: World, cred: Cred): World {
    if x.doing.InFlight? && x.doing.op !in x.sluice.issued && FreshCred(x, cred) then
      x.(sluice := x.sluice.(issued := x.sluice.issued[x.doing.op := cred]))
    else x
  }

  function ReceivesResponse(x: World, parsed: bool): World {
    if x.doing.InFlight? && x.doing.op in x.sluice.issued then
      var c := x.sluice.issued[x.doing.op];
      x.(doing := Holding(x.doing.s, x.doing.op, c, if parsed then c.notAfter else 0))
    else x
  }

  function Records(x: World, w: Write): World {
    if x.mem.None? || !x.doing.Holding? then x
    else
      var o := RecordOp(x.doing.s, x.doing.cred.fp, x.doing.expiry, Staged);
      Edit(x, o, w).(doing := if EditOk(x, o, w) then Installing(x.doing.s) else Idle)
  }

  function Promotes(x: World, w: Write): World {
    if x.mem.None? || !x.doing.Installing? then x
    else Edit(x, ActivateOp(x.doing.s), w).(doing := Idle)
  }

  /** The poller, or the resolution that precedes a delete or revoke. */
  function ResolvesSeq(x: World, s: int, w: Write): World {
    if x.mem.None? || !x.doing.Idle? then x
    else
      var gens := x.mem.value.gens;
      var i := First(gens, BySeq(s));
      if i == |gens| || !gens[i].state.Renewing? then x
      else Edit(x, Resolution(x.sluice, s, gens[i].op), w)
  }

  function Denies(x: World, fp: string): World {
    if fp == "" then x else x.(sluice := x.sluice.(revoked := x.sluice.revoked + {fp}))
  }

  /** The orphan revocation takes no lifecycle lock: it may fall anywhere. */
  function MarksRevoked(x: World, fp: string, w: Write): World {
    if x.mem.None? || fp !in x.sluice.revoked || fp == "" then x
    else Edit(x, MarkOp(fp, 0), w)
  }

  function FinishesAtBoot(x: World, s: int, onDisk: bool, w: Write): World {
    if x.mem.None? || !x.doing.Idle? then x
    else
      var gens := x.mem.value.gens;
      var i := First(gens, BySeq(s));
      if i == |gens| || !gens[i].state.Staged? then x
      else Edit(x, if onDisk then ActivateOp(s) else OrphanOp(s), w)
  }

  function BeginsRevoke(x: World): World {
    if x.mem.None? || !x.doing.Idle? || HasRenewing(x.mem.value) then x
    else x.(doing := Revoking(LiveFps(x.mem.value, x.now), {}))
  }

  /** The reply proves a durable deny. */
  predicate Proven(r: RevokeReply) {
    r.Reply? && (!r.outcome.NoOutcome? || r.revoked)
  }

  /** What a reply says about Sluice as it is afterwards.  A transport error says
      nothing, and neither does an answer without outcome that denies having
      revoked: a server of version 0.2 gives it for an unknown fingerprint. */
  predicate Truthful(sl: Sluice, fp: string, r: RevokeReply) {
    match r
    case Failed => true
    case Reply(NoOutcome, false) => true
    case Reply(_, _) => fp in sl.revoked
  }

  /** One RevokeClient, on which Sluice may have acted, and the record of its deny
      if the reply proves it; otherwise the ceremony ends. */
  function RevokesOne(x: World, fp: string, acts: bool, reply: RevokeReply, w: Write): World {
    var x' := if acts then Denies(x, fp) else x;
    if x.mem.None? || !x.doing.Revoking? || fp !in x.doing.targets || fp == "" || !Truthful(x'.sluice, fp, reply) then x
    else if !Proven(reply) then x'.(doing := Idle)
    else RecordsDeny(x', fp, w)
  }

  function RecordsDeny(x: World, fp: string, w: Write): World
    requires x.mem.Some? && x.doing.Revoking?
  {
    Edit(x, MarkOp(fp, 0), w).(doing := if w.Written? then Revoking(x.doing.targets, x.doing.proven + {fp}) else Idle)
  }

  function Prunes(x: World, w: Write): World {
    if x.mem.None? || !x.doing.Revoking? || x.doing.proven != x.doing.targets then x
    else Store(x, None, w).(doing := Idle)
  }

  /** Only an acknowledged delete reports the fingerprints Sluice still trusts. */
  function DeletesInstance(x: World, w: Write): World {
    if x.mem.None? || !x.doing.Idle? || HasRenewing(x.mem.value) then x
    else Store(x, None, w).(reported := if w.Written? then x.reported + LiveFps(x.mem.value, x.now) else x.reported)
  }

  function Step(x: World, e: Event): World {
    match e
    case Tick(d) => x.(now := x.now + d)
    case BeginRenewal(op, w) => BeginsRenewal(x, op, w)
    case SluiceIssues(cred) => Issues(x, cred)
    case ResponseLost => if x.doing.InFlight? then x.(doing := Idle) else x
    case ResponseArrives(parsed) => ReceivesResponse(x, parsed)
    case RecordsIssued(w) => Records(x, w)
    case InstallFails => if x.doing.Installing? then x.(doing := Idle) else x
    case Activates(w) => Promotes(x, w)
    case Resolves(s, w) => ResolvesSeq(x, s, w)
    case SluiceRevokes(fp) => Denies(x, fp)
    case RecordsRevocation(fp, w) => MarksRevoked(x, fp, w)
    case BootFinishes(s, onDisk, w) => FinishesAtBoot(x, s, onDisk, w)
    case OtherInstanceSaves => x.(disk := x.mem)
    case Crash => x.(mem := x.disk, doing := Idle)
    case BeginRevoke => BeginsRevoke(x)
    case RevokesTarget(fp, acts, reply, w) => RevokesOne(x, fp, acts, reply, w)
    case AbandonsRevoke => if x.doing.Revoking? then x.(doing := Idle) else x
    case PrunesRevoked(w) => Prunes(x, w)
    case Deletes(w) => DeletesInstance(x, w)
  }

  function Trace(x: World, events: seq<Event>): World
    decreases |events|
  {
    if events == [] then x else Trace(Step(x, events[0]), events[1..])
  }

  // ─── The invariant ────────────────────────────────────────────────────────

  ghost predicate Named(inst: Instance, fp: string) {
    exists g :: g in inst.gens && g.fp == fp
  }

  ghost predicate RenewingFor(inst: Instance, op: string) {
    exists g :: g in inst.gens && g.state.Renewing? && g.op == op
  }

  /** Every credential Sluice still trusts is named by a generation, or its
      operation id is recorded in a renewing one. */
  ghost predicate NoForgottenTrust(inst: Instance, sl: Sluice, now: int) {
    forall op :: sl.Trusts(op, now) ==> Named(inst, sl.issued[op].fp) || RenewingFor(inst, op)
  }

  /** A generation is called dead only when Sluice agrees. */
  ghost predicate HonestDeaths(inst: Instance, sl: Sluice) {
    && (forall g :: g in inst.gens && g.state.Revoked? ==> g.fp in sl.revoked)
    && (forall g, op :: g in inst.gens && op in sl.issued && g.fp == sl.issued[op].fp && g.notAfter > 0 ==>
          g.notAfter >= sl.issued[op].notAfter)
  }

  ghost predicate Sound(inst: Instance, sl: Sluice, now: int) {
    && WellFormed(inst)
    && NoForgottenTrust(inst, sl, now)
    && HonestDeaths(inst, sl)
    && (exists g :: g in inst.gens && !g.state.Renewing?)
    && OneOwner(sl)
  }

  /** Fingerprints are digests of distinct certificates. */
  ghost predicate OneOwner(sl: Sluice) {
    && (forall op :: op in sl.issued ==> sl.issued[op].fp != "")
    && (forall a, b :: a in sl.issued && b in sl.issued && sl.issued[a].fp == sl.issued[b].fp ==> a == b)
  }

  ghost predicate RenewingAt(inst: Instance, s: int, op: string) {
    exists g :: g in inst.gens && g.seqNo == s && g.state.Renewing? && g.op == op
  }

  ghost predicate CeremonyHolds(x: World) {
    match x.doing
    case InFlight(s, op) =>
      && x.mem.Some? && RenewingAt(x.mem.value, s, op)
      && x.disk.Some? && RenewingFor(x.disk.value, op)
    case Holding(s, op, cred, expiry) =>
      && x.mem.Some? && RenewingAt(x.mem.value, s, op)
      && op in x.sluice.issued && x.sluice.issued[op] == cred
      && (expiry == 0 || expiry == cred.notAfter)
    case Revoking(targets, proven) =>
      && proven <= x.sluice.revoked
      && forall op :: x.sluice.Trusts(op, x.now) ==> x.sluice.issued[op].fp in targets
    case _ => true
  }

  ghost predicate Inv(x: World) {
    && (x.mem.Some? ==> Sound(x.mem.value, x.sluice, x.now))
    && (x.disk.Some? ==> Sound(x.disk.value, x.sluice, x.now))
    && CeremonyHolds(x)
  }

  /** What enrollment leaves behind (cdr_ui.go:660-678). */
  ghost predicate Enrolled(x: World) {
    && x.mem.Some? && x.disk == x.mem && x.doing.Idle? && x.sluice.revoked == {} && x.reported == {}
    && exists op, c: Cred, expiry ::
         && c.fp != "" && (expiry == 0 || expiry == c.notAfter)
         && x.sluice.issued == map[op := c]
         && x.mem.value.dialFp == c.fp
         && x.mem.value.gens == [Generation(1, c.fp, expiry, Active, op)]
  }

  lemma EnrolledIsSound(x: World)
    requires Enrolled(x)
    ensures Inv(x)
  {
    var g := x.mem.value.gens[0];
    assert g in x.mem.value.gens;
  }

  // ─── Each edit keeps a lineage sound ──────────────────────────────────────

  lemma NormalizeIsIdentity(inst: Instance, sl: Sluice, now: int, certExpiry: int)
    requires Sound(inst, sl, now)
    ensures Normalize(inst, certExpiry) == inst
  {
  }

  lemma StageKeepsSound(inst: Instance, sl: Sluice, now: int, op: string)
    requires Sound(inst, sl, now) && op != ""
    requires Stage(inst, op, now, 0).Ok?
    ensures Sound(Stage(inst, op, now, 0).value, sl, now)
    ensures RenewingAt(Stage(inst, op, now, 0).value, StagedSeq(inst, now, 0), op)
  {
    NormalizeIsIdentity(inst, sl, now, 0);
    StageKeeps(inst, op, now, 0);
    var post := Stage(inst, op, now, 0).value;
    forall o | sl.Trusts(o, now)
      ensures Named(post, sl.issued[o].fp) || RenewingFor(post, o)
    {
      if Named(inst, sl.issued[o].fp) {
        var g :| g in inst.gens && g.fp == sl.issued[o].fp;
        assert g.Live(now);
        assert g in post.gens;
      }
    }
    SurvivorExists(inst, op, now);
  }

  /** Staging cannot empty the lineage of issued generations. */
  lemma SurvivorExists(inst: Instance, op: string, now: int)
    requires inst.gens != [] && Stage(inst, op, now, 0).Ok?
    ensures exists g :: g in Stage(inst, op, now, 0).value.gens && !g.state.Renewing?
  {
    var gens := Prune(inst.gens, now);
    if |inst.gens| >= MAX_GENERATIONS {
      var e := |inst.gens| - (MAX_GENERATIONS - 1);
      DropDeadLength(inst.gens, now, e);
      DropDeadKeepsLive(inst.gens, now, e);
    }
    assert gens[0] in gens && gens[0] in inst.gens;
    assert gens[0] in Stage(inst, op, now, 0).value.gens;
  }

  lemma RecordKeepsSound(inst: Instance, sl: Sluice, now: int, s: int, op: string, expiry: int, state: GenState)
    requires Sound(inst, sl, now) && RenewingAt(inst, s, op) && op in sl.issued
    requires expiry == 0 || expiry == sl.issued[op].notAfter
    requires state.Staged? || state.Orphaned? || (state.Revoked? && sl.issued[op].fp in sl.revoked)
    ensures RecordIssued(inst, s, sl.issued[op].fp, expiry, state).Ok?
    ensures Sound(RecordIssued(inst, s, sl.issued[op].fp, expiry, state).value, sl, now)
  {
    var fp := sl.issued[op].fp;
    RecordKeeps(inst, s, fp, expiry, state);
    var i := First(inst.gens, BySeq(s));
    var post := RecordIssued(inst, s, fp, expiry, state).value;
    assert inst.gens[i].op == op;
    assert post.gens[i] in post.gens;
    forall o | sl.Trusts(o, now)
      ensures Named(post, sl.issued[o].fp) || RenewingFor(post, o)
    {
      if o != op {
        var g :| g in inst.gens && (g.fp == sl.issued[o].fp || (g.state.Renewing? && g.op == o));
        assert g != inst.gens[i];
        KeepsOthers(inst.gens, post.gens, i, g);
      }
    }
  }

  lemma KeepsOthers(a: seq<Generation>, b: seq<Generation>, i: nat, g: Generation)
    requires i < |a| == |b| && g in a && g != a[i]
    requires forall j :: 0 <= j < |a| && j != i ==> b[j] == a[j]
    ensures g in b
  {
    var k :| 0 <= k < |a| && a[k] == g;
    assert b[k] == g;
  }

  lemma ActivateKeepsSound(inst: Instance, sl: Sluice, now: int, s: int)
    requires Sound(inst, sl, now) && Activate(inst, s).Ok?
    ensures Sound(Activate(inst, s).value, sl, now)
  {
    ActivateKeeps(inst, s);
    SameIdentitiesKeepSound(inst, Activate(inst, s).value, sl, now);
  }

  lemma OrphanKeepsSound(inst: Instance, sl: Sluice, now: int, s: int)
    requires Sound(inst, sl, now)
    requires forall g :: g in inst.gens && g.seqNo == s ==> g.state.Staged?
    ensures Sound(Orphan(inst, s).value, sl, now)
  {
    OrphanKeeps(inst, s);
    assert forall i :: 0 <= i < |inst.gens| ==> inst.gens[i] in inst.gens;
    SameIdentitiesKeepSound(inst, Orphan(inst, s).value, sl, now);
  }

  /** The same credential, with the same revocation and resolution status. */
  predicate SameIdentity(g: Generation, h: Generation) {
    && g.fp == h.fp && g.op == h.op && g.notAfter == h.notAfter
    && (g.state.Revoked? <==> h.state.Revoked?) && (g.state.Renewing? <==> h.state.Renewing?)
  }

  lemma Counterpart(a: seq<Generation>, b: seq<Generation>, g: Generation) returns (h: Generation)
    requires |a| == |b| && g in a
    requires forall i :: 0 <= i < |a| ==> SameIdentity(a[i], b[i])
    ensures h in b && SameIdentity(g, h)
  {
    var i :| 0 <= i < |a| && a[i] == g;
    h := b[i];
  }

  /** Moving states around, without touching identities, revocations or
      unresolved renewals, forgets nothing. */
  lemma SameIdentitiesKeepSound(a: Instance, b: Instance, sl: Sluice, now: int)
    requires Sound(a, sl, now) && WellFormed(b) && |a.gens| == |b.gens|
    requires forall i :: 0 <= i < |a.gens| ==> SameIdentity(a.gens[i], b.gens[i])
    ensures Sound(b, sl, now)
  {
    forall o | sl.Trusts(o, now)
      ensures Named(b, sl.issued[o].fp) || RenewingFor(b, o)
    {
      var g :| g in a.gens && (g.fp == sl.issued[o].fp || (g.state.Renewing? && g.op == o));
      var h := Counterpart(a.gens, b.gens, g);
    }
    forall h | h in b.gens
      ensures h.state.Revoked? ==> h.fp in sl.revoked
      ensures forall op :: op in sl.issued && h.fp == sl.issued[op].fp && h.notAfter > 0 ==> h.notAfter >= sl.issued[op].notAfter
    {
      var g := Counterpart(b.gens, a.gens, h);
    }
    var g :| g in a.gens && !g.state.Renewing?;
    var h := Counterpart(a.gens, b.gens, g);
  }

  lemma DropKeepsSound(inst: Instance, sl: Sluice, now: int, s: int, op: string)
    requires Sound(inst, sl, now) && RenewingAt(inst, s, op) && op !in sl.issued
    ensures DropUnissued(inst, s).Ok?
    ensures Sound(DropUnissued(inst, s).value, sl, now)
  {
    DropKeeps(inst, s);
    var post := DropUnissued(inst, s).value;
    var d :| d in inst.gens && d.seqNo == s && d.state.Renewing? && d !in post.gens
             && forall g :: g in inst.gens <==> g in post.gens || g == d;
    assert d.op == op;
    forall o | sl.Trusts(o, now)
      ensures Named(post, sl.issued[o].fp) || RenewingFor(post, o)
    {
      var g :| g in inst.gens && (g.fp == sl.issued[o].fp || (g.state.Renewing? && g.op == o));
      assert g != d;
    }
  }

  lemma MarkKeepsSound(inst: Instance, sl: Sluice, now: int, fp: string)
    requires Sound(inst, sl, now) && fp != "" && fp in sl.revoked
    ensures MarkRevoked(inst, fp, 0).Ok?
    ensures Sound(MarkRevoked(inst, fp, 0).value, sl, now)
    ensures forall s, op :: RenewingAt(inst, s, op) ==> RenewingAt(MarkRevoked(inst, fp, 0).value, s, op)
    ensures forall op :: RenewingFor(inst, op) ==> RenewingFor(MarkRevoked(inst, fp, 0).value, op)
  {
    NormalizeIsIdentity(inst, sl, now, 0);
    MarkKeeps(inst, fp, 0);
    var post := MarkRevoked(inst, fp, 0).value;
    MarkKeepsExpiry(inst, fp);
    forall o | sl.Trusts(o, now)
      ensures Named(post, sl.issued[o].fp) || RenewingFor(post, o)
    {
      var g :| g in inst.gens && (g.fp == sl.issued[o].fp || (g.state.Renewing? && g.op == o));
      assert g.fp != fp;
      assert g in post.gens;
    }
  }

  lemma MarkKeepsExpiry(inst: Instance, fp: string)
    requires inst.gens != []
    ensures forall h :: h in MarkRevoked(inst, fp, 0).value.gens && h.notAfter > 0 ==>
      exists g :: g in inst.gens && g.fp == h.fp && g.notAfter == h.notAfter
  {
    var post := MarkRevoked(inst, fp, 0).value;
    forall h | h in post.gens && h.notAfter > 0
      ensures exists g :: g in inst.gens && g.fp == h.fp && g.notAfter == h.notAfter
    {
      var k :| 0 <= k < |post.gens| && post.gens[k] == h;
      if k < |inst.gens| { assert inst.gens[k] in inst.gens; }
    }
  }

  // ─── Every event keeps the invariant ──────────────────────────────────────

  /** Both copies of the lineage are sound. */
  ghost predicate CopiesSound(x: World) {
    && (x.mem.Some? ==> Sound(x.mem.value, x.sluice, x.now))
    && (x.disk.Some? ==> Sound(x.disk.value, x.sluice, x.now))
  }

  lemma EditKeepsCopies(x: World, o: LineageOp, w: Write)
    requires CopiesSound(x) && x.mem.Some?
    requires Run(o, x.mem.value).Ok? ==> Sound(Run(o, x.mem.value).value, x.sluice, x.now)
    ensures CopiesSound(Edit(x, o, w))
  {
  }

  lemma BeginsRenewalKeepsInv(x: World, op: string, w: Write)
    requires Inv(x)
    ensures Inv(Step(x, BeginRenewal(op, w)))
  {
    if x.mem.Some? && x.doing.Idle? && FreshOp(x, op) && Stage(x.mem.value, op, x.now, 0).Ok? {
      StageKeepsSound(x.mem.value, x.sluice, x.now, op);
    }
  }

  lemma ReceivesResponseKeepsInv(x: World, parsed: bool)
    requires Inv(x)
    ensures Inv(Step(x, ResponseArrives(parsed)))
  {
  }

  lemma PromotesKeepsInv(x: World, w: Write)
    requires Inv(x)
    ensures Inv(Step(x, Activates(w)))
  {
    if x.mem.Some? && x.doing.Installing? {
      if Activate(x.mem.value, x.doing.s).Ok? { ActivateKeepsSound(x.mem.value, x.sluice, x.now, x.doing.s); }
      EditKeepsCopies(x, ActivateOp(x.doing.s), w);
    }
  }

  lemma RecordsKeepsInv(x: World, w: Write)
    requires Inv(x)
    ensures Inv(Step(x, RecordsIssued(w)))
  {
    if x.mem.Some? && x.doing.Holding? {
      var Holding(s, op, cred, expiry) := x.doing;
      RecordKeepsSound(x.mem.value, x.sluice, x.now, s, op, expiry, Staged);
      EditKeepsCopies(x, RecordOp(s, cred.fp, expiry, Staged), w);
    }
  }

  lemma IssuesKeepsInv(x: World, cred: Cred)
    requires Inv(x)
    ensures Inv(Step(x, SluiceIssues(cred)))
  {
    if x.doing.InFlight? && x.doing.op !in x.sluice.issued && FreshCred(x, cred) {
      IssueKeepsSound(x.mem.value, x.sluice, x.now, x.doing.op, cred);
      IssueKeepsSound(x.disk.value, x.sluice, x.now, x.doing.op, cred);
    }
  }

  lemma IssueKeepsSound(inst: Instance, sl: Sluice, now: int, op: string, cred: Cred)
    requires Sound(inst, sl, now) && RenewingFor(inst, op) && op !in sl.issued
    requires cred.fp != "" && !Named(inst, cred.fp)
    requires forall o :: o in sl.issued ==> sl.issued[o].fp != cred.fp
    ensures Sound(inst, sl.(issued := sl.issued[op := cred]), now)
  {
    var sl' := sl.(issued := sl.issued[op := cred]);
    forall o | sl'.Trusts(o, now)
      ensures Named(inst, sl'.issued[o].fp) || RenewingFor(inst, o)
    {
      if o != op { assert sl.Trusts(o, now); }
    }
  }

  lemma ResolvesKeepsInv(x: World, s: int, w: Write)
    requires Inv(x)
    ensures Inv(Step(x, Resolves(s, w)))
  {
    if x.mem.Some? && x.doing.Idle? {
      var gens := x.mem.value.gens;
      var i := First(gens, BySeq(s));
      if i < |gens| && gens[i].state.Renewing? {
        var op := gens[i].op;
        assert gens[i] in gens;
        ResolutionKeepsSound(x.mem.value, x.sluice, x.now, s, op);
        EditKeepsCopies(x, Resolution(x.sluice, s, op), w);
      }
    }
  }

  lemma ResolutionKeepsSound(inst: Instance, sl: Sluice, now: int, s: int, op: string)
    requires Sound(inst, sl, now) && RenewingAt(inst, s, op)
    ensures Run(Resolution(sl, s, op), inst).Ok?
    ensures Sound(Run(Resolution(sl, s, op), inst).value, sl, now)
  {
    if op in sl.issued {
      RecordKeepsSound(inst, sl, now, s, op, 0, if sl.issued[op].fp in sl.revoked then Revoked else Orphaned);
    } else {
      DropKeepsSound(inst, sl, now, s, op);
    }
  }

  lemma FewerTrustedKeepsSound(inst: Instance, sl: Sluice, now: int, sl': Sluice, now': int)
    requires Sound(inst, sl, now)
    requires sl'.issued == sl.issued && sl.revoked <= sl'.revoked && now <= now'
    ensures Sound(inst, sl', now')
  {
    forall o | sl'.Trusts(o, now')
      ensures Named(inst, sl'.issued[o].fp) || RenewingFor(inst, o)
    {
      assert sl.Trusts(o, now);
    }
  }

  lemma DeniesKeepsInv(x: World, fp: string)
    requires Inv(x)
    ensures Inv(Step(x, SluiceRevokes(fp)))
  {
    var x' := Denies(x, fp);
    if x.mem.Some? { FewerTrustedKeepsSound(x.mem.value, x.sluice, x.now, x'.sluice, x.now); }
    if x.disk.Some? { FewerTrustedKeepsSound(x.disk.value, x.sluice, x.now, x'.sluice, x.now); }
    assert forall op :: x'.sluice.Trusts(op, x.now) ==> x.sluice.Trusts(op, x.now);
  }

  lemma TickKeepsInv(x: World, d: nat)
    requires Inv(x)
    ensures Inv(Step(x, Tick(d)))
  {
    if x.mem.Some? { FewerTrustedKeepsSound(x.mem.value, x.sluice, x.now, x.sluice, x.now + d); }
    if x.disk.Some? { FewerTrustedKeepsSound(x.disk.value, x.sluice, x.now, x.sluice, x.now + d); }
    assert forall op :: x.sluice.Trusts(op, x.now + d) ==> x.sluice.Trusts(op, x.now);
  }

  lemma MarksKeepsInv(x: World, fp: string, w: Write)
    requires Inv(x)
    ensures Inv(Step(x, RecordsRevocation(fp, w)))
  {
    if x.mem.Some? && fp in x.sluice.revoked && fp != "" {
      MarkKeepsSound(x.mem.value, x.sluice, x.now, fp);
      EditKeepsCopies(x, MarkOp(fp, 0), w);
      var next := MarkRevoked(x.mem.value, fp, 0).value;
      match x.doing {
        case InFlight(s, op) =>
          assert RenewingAt(next, s, op);
          assert RenewingFor(next, op);
        case _ =>
      }
    }
  }

  lemma BootKeepsInv(x: World, s: int, onDisk: bool, w: Write)
    requires Inv(x)
    ensures Inv(Step(x, BootFinishes(s, onDisk, w)))
  {
    if x.mem.Some? && x.doing.Idle? {
      var inst := x.mem.value;
      var i := First(inst.gens, BySeq(s));
      if i < |inst.gens| && inst.gens[i].state.Staged? {
        if onDisk {
          if Activate(inst, s).Ok? { ActivateKeepsSound(inst, x.sluice, x.now, s); }
          EditKeepsCopies(x, ActivateOp(s), w);
        } else {
          OrphanKeepsSound(inst, x.sluice, x.now, s);
          EditKeepsCopies(x, OrphanOp(s), w);
        }
      }
    }
  }

  /** With no renewal unresolved, every credential Sluice still trusts is among
      the live fingerprints a removal reports and a revocation targets. */
  lemma LiveFpsComplete(inst: Instance, sl: Sluice, now: int)
    requires Sound(inst, sl, now) && !HasRenewing(inst)
    ensures forall op :: sl.Trusts(op, now) ==> sl.issued[op].fp in LiveFps(inst, now)
  {
    forall op | sl.Trusts(op, now)
      ensures sl.issued[op].fp in LiveFps(inst, now)
    {
      assert Named(inst, sl.issued[op].fp);
      var g :| g in inst.gens && g.fp == sl.issued[op].fp;
      assert g.Live(now);
    }
  }

  lemma BeginsRevokeKeepsInv(x: World)
    requires Inv(x)
    ensures Inv(Step(x, BeginRevoke))
  {
    if x.mem.Some? && x.doing.Idle? && !HasRenewing(x.mem.value) {
      LiveFpsComplete(x.mem.value, x.sluice, x.now);
    }
  }

  lemma RevokesOneKeepsInv(x: World, fp: string, acts: bool, reply: RevokeReply, w: Write)
    requires Inv(x)
    ensures Inv(Step(x, RevokesTarget(fp, acts, reply, w)))
  {
    var x' := if acts then Denies(x, fp) else x;
    RevokesOneIs(x, fp, acts, reply, w);
    if acts { DeniesKeepsInv(x, fp); }
    IdleKeepsInv(x');
    if x.mem.Some? && x.doing.Revoking? && fp != "" && Truthful(x'.sluice, fp, reply) && Proven(reply) {
      ProvenIffDenied(fp, reply);
      RecordsDenyKeepsInv(x', fp, w);
    }
  }

  lemma RevokesOneIs(x: World, fp: string, acts: bool, reply: RevokeReply, w: Write)
    ensures
      var x' := if acts then Denies(x, fp) else x;
      var y := Step(x, RevokesTarget(fp, acts, reply, w));
      || y == x || y == x'.(doing := Idle)
      || (x.mem.Some? && x.doing.Revoking? && fp != "" && Truthful(x'.sluice, fp, reply) && Proven(reply) && y == RecordsDeny(x', fp, w))
  {
  }

  lemma IdleKeepsInv(x: World)
    requires Inv(x)
    ensures Inv(x.(doing := Idle))
  {
  }

  /** Recording a deny that Sluice has made. */
  lemma RecordsDenyKeepsInv(x: World, fp: string, w: Write)
    requires Inv(x) && x.mem.Some? && x.doing.Revoking? && fp != "" && fp in x.sluice.revoked
    ensures Inv(RecordsDeny(x, fp, w))
  {
    MarkKeepsSound(x.mem.value, x.sluice, x.now, fp);
    EditKeepsCopies(x, MarkOp(fp, 0), w);
  }

  /** Replies, each truthful about Sluice, prove a deny exactly when they are such
      that Sluice must be denying the credential. */
  lemma ProvenIffDenied(fp: string, r: RevokeReply)
    ensures (forall sl: Sluice :: Truthful(sl, fp, r) ==> fp in sl.revoked) <==> Proven(r)
  {
    if !Proven(r) {
      var sl := Sluice(map[], {});
      assert Truthful(sl, fp, r) && fp !in sl.revoked;
    }
  }

  /** The two server versions: 0.3 ends with a deny in any case and says how; 0.2
      ignores a fingerprint it does not know or has denied before. */
  datatype Version = V2 | V3

  function Serve(v: Version, sl: Sluice, fp: string): (Sluice, RevokeReply) {
    var known := exists op :: op in sl.issued && sl.issued[op].fp == fp;
    var denying := sl.(revoked := sl.revoked + {fp});
    match v
    case V2 => if known && fp !in sl.revoked then (denying, Reply(NoOutcome, true)) else (sl, Reply(NoOutcome, false))
    case V3 => (denying, Reply(if fp in sl.revoked then AlreadyRevoked else if known then OutcomeRevoked else Tombstoned, true))
  }

  /** Both versions answer truthfully.  A 0.3 server always proves the deny; a 0.2
      server proves it exactly for a credential it issued and had not denied. */
  lemma ServersProve(v: Version, sl: Sluice, fp: string)
    ensures var (sl', r) := Serve(v, sl, fp);
      && Truthful(sl', fp, r)
      && (Proven(r) <==> v.V3? || ((exists op :: op in sl.issued && sl.issued[op].fp == fp) && fp !in sl.revoked))
      && (Proven(r) ==> fp in sl'.revoked)
  {
  }

  lemma RemovalsKeepInv(x: World, w: Write)
    requires Inv(x)
    ensures Inv(Step(x, PrunesRevoked(w)))
    ensures Inv(Step(x, Deletes(w)))
  {
  }

  lemma StepKeepsInv(x: World, e: Event)
    requires Inv(x)
    ensures Inv(Step(x, e))
  {
    match e
    case Tick(d) => TickKeepsInv(x, d);
    case BeginRenewal(op, w) => BeginsRenewalKeepsInv(x, op, w);
    case SluiceIssues(cred) => IssuesKeepsInv(x, cred);
    case ResponseLost =>
    case ResponseArrives(parsed) => ReceivesResponseKeepsInv(x, parsed);
    case RecordsIssued(w) => RecordsKeepsInv(x, w);
    case InstallFails =>
    case Activates(w) => PromotesKeepsInv(x, w);
    case Resolves(s, w) => ResolvesKeepsInv(x, s, w);
    case SluiceRevokes(fp) => DeniesKeepsInv(x, fp);
    case RecordsRevocation(fp, w) => MarksKeepsInv(x, fp, w);
    case BootFinishes(s, onDisk, w) => BootKeepsInv(x, s, onDisk, w);
    case OtherInstanceSaves =>
      match x.doing {
        case InFlight(s, op) => assert RenewingFor(x.mem.value, op);
        case _ =>
      }
    case Crash =>
    case BeginRevoke => BeginsRevokeKeepsInv(x);
    case RevokesTarget(fp, acts, reply, w) => RevokesOneKeepsInv(x, fp, acts, reply, w);
    case AbandonsRevoke =>
    case PrunesRevoked(w) => RemovalsKeepInv(x, w);
    case Deletes(w) => RemovalsKeepInv(x, w);
  }

  // ─── Main results ─────────────────────────────────────────────────────────

  /** No forgotten trust: from enrollment on, after any run of renewals, lost
      responses, failed or half-reported saves, revocations, deletes and crashes,
      both the lineage in memory and the one a restart would load still name
      every credential Sluice trusts, or hold the operation id that resolves it. */
  lemma {:induction false} TrustIsNeverForgotten(x: World, events: seq<Event>)
    requires Inv(x)
    ensures Inv(Trace(x, events))
    decreases |events|
  {
    if events != [] {
      StepKeepsInv(x, events[0]);
      TrustIsNeverForgotten(Step(x, events[0]), events[1..]);
    }
  }

  /** Revocation is complete: when revoke-by-name takes the instance out of the
      registry, Sluice denies every credential it ever issued to it, or that
      credential has expired. */
  lemma RevocationIsComplete(x: World, events: seq<Event>, w: Write)
    requires Enrolled(x)
    requires var y := Trace(x, events); y.doing.Revoking? && y.mem.Some?
    ensures var y := Trace(x, events);
            var z := Step(y, PrunesRevoked(w));
            z.mem.None? || z.disk != y.disk ==>
              forall op :: op in y.sluice.issued ==> y.sluice.issued[op].fp in y.sluice.revoked || y.now >= y.sluice.issued[op].notAfter
  {
    EnrolledIsSound(x);
    TrustIsNeverForgotten(x, events);
    var y := Trace(x, events);
    if y.doing.proven == y.doing.targets {
      forall op | op in y.sluice.issued
        ensures y.sluice.issued[op].fp in y.sluice.revoked || y.now >= y.sluice.issued[op].notAfter
      {
        if y.sluice.Trusts(op, y.now) { assert y.sluice.issued[op].fp in y.doing.targets; }
      }
    }
  }

  /** A delete changes nothing at Sluice.  When it is acknowledged, everything
      Sluice still trusts is reported; when it is not, nothing is. */
  lemma DeleteReportsAllTrust(x: World, events: seq<Event>, w: Write)
    requires Enrolled(x) && Trace(x, events).mem.Some?
    ensures var y := Trace(x, events);
            var z := Step(y, Deletes(w));
            && z.sluice == y.sluice && z.now == y.now
            && (z.mem.None? ==> forall op :: z.sluice.Trusts(op, z.now) ==> z.sluice.issued[op].fp in z.reported)
            && (z.mem.Some? ==> z.reported == y.reported)
  {
    EnrolledIsSound(x);
    TrustIsNeverForgotten(x, events);
    var y := Trace(x, events);
    if y.doing.Idle? && !HasRenewing(y.mem.value) { LiveFpsComplete(y.mem.value, y.sluice, y.now); }
  }

  // ─── Trust that nothing names any more ────────────────────────────────────

  /** The credential of `op` is reported, or this copy of the lineage leads to it. */
  ghost predicate Leads(x: World, v: Option<Instance>, op: string)
    requires op in x.sluice.issued
  {
    var fp := x.sluice.issued[op].fp;
    fp in x.reported || (v.Some? && (Named(v.value, fp) || RenewingFor(v.value, op)))
  }

  ghost predicate Accounted(x: World, v: Option<Instance>) {
    forall op :: x.sluice.Trusts(op, x.now) ==> Leads(x, v, op)
  }

  /** A delete that is answered with an error after the file was replaced. */
  predicate HalfDelete(e: Event) {
    e.Deletes? && e.w.ReplacedNotSynced?
  }

  predicate NoHalfDelete(events: seq<Event>) {
    forall i :: 0 <= i < |events| ==> !HalfDelete(events[i])
  }

  lemma SoundIsAccounted(x: World, v: Option<Instance>)
    requires v.Some? && Sound(v.value, x.sluice, x.now)
    ensures Accounted(x, v)
  {
  }

  lemma FewerTrustedAccounted(x: World, y: World, v: Option<Instance>)
    requires Accounted(x, v) && x.reported <= y.reported
    requires forall op :: y.sluice.Trusts(op, y.now) ==> x.sluice.Trusts(op, x.now) && y.sluice.issued[op] == x.sluice.issued[op]
    ensures Accounted(y, v)
  {
    forall op | y.sluice.Trusts(op, y.now) ensures Leads(y, v, op) { assert Leads(x, v, op); }
  }

  /** The events after which one copy may have lost the instance. */
  lemma RemovalKeepsAccounted(x: World, e: Event)
    requires Inv(x) && x.mem.Some? && (e.PrunesRevoked? || e.Deletes?) && !HalfDelete(e) && Step(x, e) != x
    ensures e.Deletes? ==> Accounted(Step(x, e), None)
    ensures e.PrunesRevoked? ==> (Step(x, e).mem.None? || Step(x, e).disk != x.disk) ==> Accounted(Step(x, e), None)
  {
    var y := Step(x, e);
    if e.Deletes? {
      LiveFpsComplete(x.mem.value, x.sluice, x.now);
    } else if x.doing.Revoking? && x.doing.proven == x.doing.targets {
      assert forall op :: !x.sluice.Trusts(op, x.now);
    }
  }

  lemma StepKeepsMemAccounted(x: World, e: Event)
    requires Inv(x) && Accounted(x, x.mem) && Accounted(x, x.disk) && !HalfDelete(e)
    ensures Accounted(Step(x, e), Step(x, e).mem)
  {
    StepKeepsInv(x, e);
    var y := Step(x, e);
    if y.mem.Some? {
      SoundIsAccounted(y, y.mem);
    } else if x.mem.Some? && !e.Crash? {
      assert e.PrunesRevoked? || e.Deletes?;
      RemovalKeepsAccounted(x, e);
    } else {
      QuietStep(x, e);
      FewerTrustedAccounted(x, y, if e.Crash? then x.disk else x.mem);
    }
  }

  /** Without a lineage in memory, no event creates trust. */
  lemma QuietStep(x: World, e: Event)
    requires Inv(x) && (x.mem.None? || e.Crash?)
    ensures var y := Step(x, e);
      && x.reported <= y.reported && (!e.Crash? ==> y.mem.None?)
      && forall op :: y.sluice.Trusts(op, y.now) ==> x.sluice.Trusts(op, x.now) && y.sluice.issued[op] == x.sluice.issued[op]
  {
  }

  lemma StepKeepsDiskAccounted(x: World, e: Event)
    requires Inv(x) && Accounted(x, x.mem) && Accounted(x, x.disk) && !HalfDelete(e)
    ensures Accounted(Step(x, e), Step(x, e).disk)
  {
    StepKeepsInv(x, e);
    var y := Step(x, e);
    if y.disk.Some? {
      SoundIsAccounted(y, y.disk);
    } else if x.mem.Some? && (e.PrunesRevoked? || e.Deletes?) && y != x {
      RemovalKeepsAccounted(x, e);
      if y.mem.Some? && y.disk == x.disk { FewerTrustedAccounted(x, y, x.disk); }
    } else {
      NoTrustWithoutFile(x, e);
      FewerTrustedAccounted(x, y, if e.OtherInstanceSaves? then x.mem else x.disk);
    }
  }

  /** A renewal is only sent while the file holds its intent. */
  lemma NoTrustWithoutFile(x: World, e: Event)
    requires Inv(x) && Step(x, e).disk.None?
    requires !(x.mem.Some? && (e.PrunesRevoked? || e.Deletes?) && Step(x, e) != x)
    ensures var y := Step(x, e);
      && x.reported <= y.reported && y.disk == (if e.OtherInstanceSaves? then x.mem else x.disk)
      && forall op :: y.sluice.Trusts(op, y.now) ==> x.sluice.Trusts(op, x.now) && y.sluice.issued[op] == x.sluice.issued[op]
  {
    if e.RevokesTarget? { RevokesOneIs(x, e.fp, e.acts, e.reply, e.w); }
  }

  lemma {:induction false} AccountedAlways(x: World, events: seq<Event>)
    requires Inv(x) && Accounted(x, x.mem) && Accounted(x, x.disk) && NoHalfDelete(events)
    ensures var y := Trace(x, events); Accounted(y, y.mem) && Accounted(y, y.disk)
    decreases |events|
  {
    if events != [] {
      assert !HalfDelete(events[0]);
      StepKeepsInv(x, events[0]);
      StepKeepsMemAccounted(x, events[0]);
      StepKeepsDiskAccounted(x, events[0]);
      AccountedAlways(Step(x, events[0]), events[1..]);
    }
  }

  lemma EnrolledInstanceKeepsTrust(x: World, events: seq<Event>)
    requires Enrolled(x)
    ensures var y := Trace(x, events);
            && (y.mem.Some? ==> WellFormed(y.mem.value) && NoForgottenTrust(y.mem.value, y.sluice, y.now))
            && (y.disk.Some? ==> WellFormed(y.disk.value) && NoForgottenTrust(y.disk.value, y.sluice, y.now))
            && (NoHalfDelete(events) ==> Accounted(y, y.mem) && Accounted(y, y.disk))
  {
    EnrolledIsSound(x);
    TrustIsNeverForgotten(x, events);
    if NoHalfDelete(events) {
      SoundIsAccounted(x, x.mem);
      AccountedAlways(x, events);
    }
  }

  /** The failing run: a delete answered with an error, then a restart.  Sluice still
      trusts the credential, nothing names it, and no fingerprint was reported. */
  lemma HalfDeleteForgets(x: World, op: string)
    requires Enrolled(x) && x.sluice.Trusts(op, x.now)
    ensures var y := Trace(x, [Deletes(ReplacedNotSynced), Crash]);
      y.mem.None? && y.disk.None? && y.reported == {} && y.sluice.Trusts(op, y.now) && !Accounted(y, y.mem)
  {
    var events := [Deletes(ReplacedNotSynced), Crash];
    var x1 := Step(x, events[0]);
    var y := Step(x1, Crash);
    assert events[1..] == [Crash] && [Crash][1..] == [];
    assert Trace(x1, [Crash]) == Trace(y, []);
    assert Trace(x, events) == y;
    assert !Leads(y, y.mem, op);
  }

  /** Every credential has such a world: what enrolling it leaves behind. */
  lemma EnrollmentOf(name: string, op: string, c: Cred, now: int) returns (x: World)
    requires c.fp != "" && now < c.notAfter
    ensures Enrolled(x) && Inv(x) && Accounted(x, x.mem) && x.sluice.Trusts(op, x.now) && x.sluice.issued[op] == c
  {
    var inst := Instance(name, c.fp, [Generation(1, c.fp, c.notAfter, Active, op)]);
    x := World(Sluice(map[op := c], {}), Some(inst), Some(inst), Idle, now, {});
    assert x.sluice.issued == map[op := c] && inst.gens == [Generation(1, c.fp, c.notAfter, Active, op)];
    EnrolledIsSound(x);
    SoundIsAccounted(x, x.mem);
  }

  ghost predicate StaysAccounted(x: World, events: seq<Event>) {
    NoHalfDelete(events) ==> Accounted(Trace(x, events), Trace(x, events).mem)
  }

  /** Over every continuation without a further such delete, no trusted credential
      becomes both unnamed and unreported, if and only if it is not the case that
      memory holds the instance, the file does not, and Sluice trusts something
      not reported. */
  lemma TrustStaysAccountedIff(x: World)
    requires Inv(x) && Accounted(x, x.mem)
    ensures (forall events: seq<Event> :: StaysAccounted(x, events)) <==>
              !(x.mem.Some? && x.disk.None? && exists op :: x.sluice.Trusts(op, x.now) && x.sluice.issued[op].fp !in x.reported)
  {
    if x.mem.Some? && x.disk.None? && exists op :: x.sluice.Trusts(op, x.now) && x.sluice.issued[op].fp !in x.reported {
      var op :| x.sluice.Trusts(op, x.now) && x.sluice.issued[op].fp !in x.reported;
      var y := Step(x, Crash);
      assert [Crash][1..] == [];
      assert Trace(x, [Crash]) == Trace(y, []) == y;
      assert !Leads(y, y.mem, op);
      assert !StaysAccounted(x, [Crash]);
    } else {
      if x.disk.Some? { SoundIsAccounted(x, x.disk); }
      forall events: seq<Event> ensures StaysAccounted(x, events) {
        if NoHalfDelete(events) { AccountedAlways(x, events); }
      }
    }
  }
}
