/** What each ceremony of the trust protocol achieves when nothing fails
    (cdr_health.go:233-405, cdr_lineage.go:375-421, cdr_ui.go:969-1082): safety alone
    would also hold of steps that do nothing.
 */
module TrustCeremonies {
  import opened Wrappers
  import opened Lineage
  import opened TrustProtocol

  lemma TraceCons(x: World, e: Event, rest: seq<Event>)
    ensures Trace(x, [e] + rest) == Trace(Step(x, e), rest)
  {
    assert ([e] + rest)[1..] == rest;
  }

  ghost predicate HasGeneration(inst: Instance, fp: string, op: string, state: GenState) {
    exists g :: g in inst.gens && g.fp == fp && g.op == op && g.state == state
  }

  /** Sequence numbers are distinct, so one generation carries `s`. */
  lemma OneWithSeq(inst: Instance, g: Generation, h: Generation)
    requires WellFormed(inst) && g in inst.gens && h in inst.gens && g.seqNo == h.seqNo
    ensures g == h
  {
    var k :| 0 <= k < |inst.gens| && inst.gens[k] == g;
    var m :| 0 <= m < |inst.gens| && inst.gens[m] == h;
    assert k != m ==> Clash(inst.gens[k], inst.gens[m]);
  }

  lemma OneUnresolved(inst: Instance, g: Generation, h: Generation)
    requires WellFormed(inst) && g in inst.gens && h in inst.gens && g.Unresolved() && h.Unresolved()
    ensures g == h
  {
    var k :| 0 <= k < |inst.gens| && inst.gens[k] == g;
    var m :| 0 <= m < |inst.gens| && inst.gens[m] == h;
    assert k != m ==> Clash(inst.gens[k], inst.gens[m]);
  }

  // ─── Renewal ──────────────────────────────────────────────────────────────

  /** A renewal all of whose steps succeed. */
  function Renewal(op: string, cred: Cred, parsed: bool): seq<Event> {
    [BeginRenewal(op, Written), SluiceIssues(cred), ResponseArrives(parsed), RecordsIssued(Written), Activates(Written)]
  }

  lemma TraceOfRenewal(x: World, op: string, cred: Cred, parsed: bool)
    ensures Trace(x, Renewal(op, cred, parsed)) ==
              Step(Step(Step(Step(Step(x, BeginRenewal(op, Written)), SluiceIssues(cred)), ResponseArrives(parsed)), RecordsIssued(Written)), Activates(Written))
  {
    var e := Renewal(op, cred, parsed);
    var x1 := Step(x, e[0]);
    var x2 := Step(x1, e[1]);
    var x3 := Step(x2, e[2]);
    var x4 := Step(x3, e[3]);
    assert e == [e[0]] + [e[1], e[2], e[3], e[4]] && [e[1], e[2], e[3], e[4]] == [e[1]] + [e[2], e[3], e[4]];
    assert [e[2], e[3], e[4]] == [e[2]] + [e[3], e[4]] && [e[3], e[4]] == [e[3]] + [e[4]] && [e[4]] == [e[4]] + [];
    TraceCons(x, e[0], [e[1], e[2], e[3], e[4]]);
    TraceCons(x1, e[1], [e[2], e[3], e[4]]);
    TraceCons(x2, e[2], [e[3], e[4]]);
    TraceCons(x3, e[3], [e[4]]);
    TraceCons(x4, e[4], []);
  }

  /** The intent is saved. */
  lemma StagedRenewal(x: World, op: string)
    requires Inv(x) && x.mem.Some? && x.doing.Idle? && FreshOp(x, op) && Stage(x.mem.value, op, x.now, 0).Ok?
    ensures
      var y := Step(x, BeginRenewal(op, Written));
      var s := StagedSeq(x.mem.value, x.now, 0);
      && y.mem.Some? && y.disk == y.mem && y.doing == InFlight(s, op) && y.sluice == x.sluice
      && WellFormed(y.mem.value) && RenewingAt(y.mem.value, s, op)
      && (forall g :: g in x.mem.value.gens && g.Live(x.now) ==> g in y.mem.value.gens)
      && (forall g :: g in y.mem.value.gens ==> g.fp == "" || g in x.mem.value.gens)
  {
    NormalizeIsIdentity(x.mem.value, x.sluice, x.now, 0);
    StageKeeps(x.mem.value, op, x.now, 0);
  }

  /** Sluice issues, and the answer arrives. */
  lemma AnsweredRenewal(x: World, s: int, op: string, cred: Cred, parsed: bool)
    requires x.mem.Some? && x.disk == x.mem && x.doing == InFlight(s, op) && op !in x.sluice.issued && FreshCred(x, cred)
    ensures Step(Step(x, SluiceIssues(cred)), ResponseArrives(parsed)) ==
              x.(sluice := x.sluice.(issued := x.sluice.issued[op := cred]),
                 doing := Holding(s, op, cred, if parsed then cred.notAfter else 0))
  {
  }

  /** The credential is recorded, then activated. */
  lemma RecordedRenewal(inst: Instance, s: int, op: string, fp: string, expiry: int)
    requires WellFormed(inst) && RenewingAt(inst, s, op) && fp != ""
    ensures var r := RecordIssued(inst, s, fp, expiry, Staged);
      && r.Ok? && Activate(r.value, s).Ok?
      && var post := Activate(r.value, s).value;
         && post.dialFp == fp && HasGeneration(post, fp, op, Active)
         && forall g :: g in inst.gens && g.fp != "" ==> Named(post, g.fp)
  {
    RecordKeeps(inst, s, fp, expiry, Staged);
    var r := RecordIssued(inst, s, fp, expiry, Staged).value;
    var i := First(inst.gens, BySeq(s));
    var d :| d in inst.gens && d.seqNo == s && d.state.Renewing? && d.op == op;
    OneWithSeq(inst, d, inst.gens[i]);
    assert r.gens[i] in r.gens;
    ActivateKeeps(r, s);
    var post := Activate(r, s).value;
    assert post.gens[i] in post.gens && post.gens[i].fp == fp && post.gens[i].op == op && post.gens[i].state == Active;
    var g :| g in r.gens && g.seqNo == s && g.state.Staged? && post.dialFp == g.fp;
    OneWithSeq(r, g, r.gens[i]);
    forall h | h in inst.gens && h.fp != "" ensures Named(post, h.fp) {
      var k :| 0 <= k < |inst.gens| && inst.gens[k] == h;
      assert post.gens[k] in post.gens;
    }
  }

  lemma FinishedRenewal(x: World, s: int, op: string, cred: Cred, expiry: int)
    requires x.mem.Some? && x.doing == Holding(s, op, cred, expiry) && WellFormed(x.mem.value) && RenewingAt(x.mem.value, s, op) && cred.fp != ""
    ensures
      var y := Step(Step(x, RecordsIssued(Written)), Activates(Written));
      && y.mem.Some? && y.disk == y.mem && y.doing.Idle? && y.sluice == x.sluice
      && y.mem.value.dialFp == cred.fp && HasGeneration(y.mem.value, cred.fp, op, Active)
      && forall g :: g in x.mem.value.gens && g.fp != "" ==> Named(y.mem.value, g.fp)
  {
    RecordedRenewal(x.mem.value, s, op, cred.fp, expiry);
  }

  /** A clean renewal dials with the new credential: whenever it can be staged, it
      ends with the new generation active and dialled in memory and on disk, and
      forgets no live generation. */
  lemma CleanRenewalActivates(x: World, op: string, cred: Cred, parsed: bool)
    requires Inv(x) && x.mem.Some? && x.doing.Idle? && FreshOp(x, op) && FreshCred(x, cred)
    requires Stage(x.mem.value, op, x.now, 0).Ok?
    ensures
      var y := Trace(x, Renewal(op, cred, parsed));
      && y.mem.Some? && y.disk == y.mem && y.doing.Idle? && y.sluice == x.sluice.(issued := x.sluice.issued[op := cred])
      && y.mem.value.dialFp == cred.fp && HasGeneration(y.mem.value, cred.fp, op, Active)
      && forall g :: g in x.mem.value.gens && g.Live(x.now) && g.fp != "" ==> Named(y.mem.value, g.fp)
  {
    TraceOfRenewal(x, op, cred, parsed);
    StagedRenewal(x, op);
    var x1 := Step(x, BeginRenewal(op, Written));
    var s := StagedSeq(x.mem.value, x.now, 0);
    StillFresh(x, x1, cred);
    AnsweredRenewal(x1, s, op, cred, parsed);
    FinishedRenewal(Step(Step(x1, SluiceIssues(cred)), ResponseArrives(parsed)), s, op, cred, if parsed then cred.notAfter else 0);
  }

  lemma StillFresh(x: World, y: World, cred: Cred)
    requires FreshCred(x, cred) && x.mem.Some? && y.mem.Some? && y.disk == y.mem && y.sluice == x.sluice
    requires forall g :: g in y.mem.value.gens ==> g.fp == "" || g in x.mem.value.gens
    ensures FreshCred(y, cred)
  {
  }

  // ─── Resolution ───────────────────────────────────────────────────────────

  lemma RecordedResolution(inst: Instance, s: int, op: string, fp: string, state: GenState)
    requires WellFormed(inst) && RenewingAt(inst, s, op) && (state.Orphaned? || state.Revoked?)
    ensures
      var r := RecordIssued(inst, s, fp, 0, state);
      r.Ok? && HasGeneration(r.value, fp, op, state) && !HasRenewing(r.value)
  {
    RecordKeeps(inst, s, fp, 0, state);
    var post := RecordIssued(inst, s, fp, 0, state).value;
    var i := First(inst.gens, BySeq(s));
    var d :| d in inst.gens && d.seqNo == s && d.state.Renewing? && d.op == op;
    OneWithSeq(inst, d, inst.gens[i]);
    assert post.gens[i] in post.gens;
    forall g | g in post.gens ensures !g.state.Renewing? {
      var k :| 0 <= k < |post.gens| && post.gens[k] == g;
      if k != i && inst.gens[k].state.Renewing? {
        OneUnresolved(inst, inst.gens[k], inst.gens[i]);
        assert Clash(inst.gens[k], inst.gens[i]);
      }
    }
  }

  lemma DroppedResolution(inst: Instance, s: int, op: string)
    requires WellFormed(inst) && RenewingAt(inst, s, op)
    ensures
      var r := DropUnissued(inst, s);
      r.Ok? && !HasRenewing(r.value) && forall g :: g in r.value.gens <==> g in inst.gens && g.seqNo != s
  {
    DropKeeps(inst, s);
    var post := DropUnissued(inst, s).value;
    var d :| d in inst.gens && d.seqNo == s && d.state.Renewing? && d !in post.gens && forall g :: g in inst.gens <==> g in post.gens || g == d;
    forall g | g in inst.gens && g != d ensures g.seqNo != s && !g.state.Renewing? {
      if g.seqNo == s { OneWithSeq(inst, g, d); }
      if g.state.Renewing? { OneUnresolved(inst, g, d); }
    }
  }

  lemma ResolvesIs(x: World, s: int, op: string)
    requires x.mem.Some? && x.doing.Idle?
    requires var i := First(x.mem.value.gens, BySeq(s)); i < |x.mem.value.gens| && x.mem.value.gens[i].state.Renewing? && x.mem.value.gens[i].op == op
    ensures Step(x, Resolves(s, Written)) == Edit(x, Resolution(x.sluice, s, op), Written)
  {
  }

  /** Asking Sluice settles a lost renewal: an unissued one leaves the lineage, an
      issued one is recorded with its fingerprint, as revoked exactly if denied. */
  lemma ResolutionSettles(x: World, s: int, op: string)
    requires Inv(x) && x.mem.Some? && x.doing.Idle? && RenewingAt(x.mem.value, s, op)
    ensures
      var y := Step(x, Resolves(s, Written));
      && y.mem.Some? && y.disk == y.mem && y.sluice == x.sluice && !HasRenewing(y.mem.value)
      && (op in x.sluice.issued ==>
            HasGeneration(y.mem.value, x.sluice.issued[op].fp, op, if x.sluice.issued[op].fp in x.sluice.revoked then Revoked else Orphaned))
      && (op !in x.sluice.issued ==> forall g :: g in y.mem.value.gens <==> g in x.mem.value.gens && g.seqNo != s)
  {
    var inst := x.mem.value;
    var i := First(inst.gens, BySeq(s));
    var d :| d in inst.gens && d.seqNo == s && d.state.Renewing? && d.op == op;
    OneWithSeq(inst, d, inst.gens[i]);
    ResolvesIs(x, s, op);
    if op in x.sluice.issued {
      RecordedResolution(inst, s, op, x.sluice.issued[op].fp, if x.sluice.issued[op].fp in x.sluice.revoked then Revoked else Orphaned);
    } else {
      DroppedResolution(inst, s, op);
    }
  }

  // ─── Boot ─────────────────────────────────────────────────────────────────

  ghost predicate StagedAt(inst: Instance, s: int, fp: string, op: string) {
    exists g :: g in inst.gens && g.seqNo == s && g.state.Staged? && g.fp == fp && g.op == op
  }

  lemma BootEdit(inst: Instance, s: int, fp: string, op: string)
    requires WellFormed(inst) && StagedAt(inst, s, fp, op)
    ensures var i := First(inst.gens, BySeq(s)); i < |inst.gens| && inst.gens[i].state.Staged?
    ensures Activate(inst, s).Ok? && Activate(inst, s).value.dialFp == fp && HasGeneration(Activate(inst, s).value, fp, op, Active)
    ensures Orphan(inst, s).value.dialFp == inst.dialFp && HasGeneration(Orphan(inst, s).value, fp, op, Orphaned)
  {
    var i := First(inst.gens, BySeq(s));
    var g :| g in inst.gens && g.seqNo == s && g.state.Staged? && g.fp == fp && g.op == op;
    OneWithSeq(inst, g, inst.gens[i]);
    forall h | h in inst.gens && h.seqNo == s ensures h == g { OneWithSeq(inst, h, g); }
    ActivateKeeps(inst, s);
    OrphanKeeps(inst, s);
    assert Activate(inst, s).value.gens[i] in Activate(inst, s).value.gens;
    assert Orphan(inst, s).value.gens[i] in Orphan(inst, s).value.gens;
  }

  /** The boot settles a staged generation: active and dialled when its certificate
      is on disk, orphaned otherwise. */
  lemma BootSettles(x: World, s: int, fp: string, op: string, onDisk: bool)
    requires Inv(x) && x.mem.Some? && x.doing.Idle? && StagedAt(x.mem.value, s, fp, op)
    ensures
      var y := Step(x, BootFinishes(s, onDisk, Written));
      && y.mem.Some? && y.disk == y.mem && HasGeneration(y.mem.value, fp, op, if onDisk then Active else Orphaned)
      && y.mem.value.dialFp == if onDisk then fp else x.mem.value.dialFp
  {
    BootEdit(x.mem.value, s, fp, op);
  }

  /** A deny outside any ceremony is recorded: the lineage then says revoked, for a
      known fingerprint or a new one, and loses no other generation. */
  lemma DenialIsRecorded(x: World, fp: string)
    requires Inv(x) && x.mem.Some? && fp != "" && fp in x.sluice.revoked
    ensures
      var y := Step(x, RecordsRevocation(fp, Written));
      && y == x.(mem := y.mem, disk := y.mem) && y.mem.Some?
      && (exists g :: g in y.mem.value.gens && g.fp == fp && g.state.Revoked?)
      && (forall g :: g in x.mem.value.gens && g.fp != fp ==> g in y.mem.value.gens)
  {
    NormalizeIsIdentity(x.mem.value, x.sluice, x.now, 0);
    MarkKeeps(x.mem.value, fp, 0);
  }

  // ─── Revoke by name, and delete ───────────────────────────────────────────

  /** The denies of a revocation, each proven and recorded. */
  function Denials(fps: seq<string>): seq<Event> {
    if fps == [] then [] else [RevokesTarget(fps[0], true, Reply(OutcomeRevoked, true), Written)] + Denials(fps[1..])
  }

  function AsSet(fps: seq<string>): set<string> {
    set fp | fp in fps
  }

  ghost predicate Proved(x: World, y: World, fps: set<string>) {
    && x.mem.Some? && y.mem.Some? && y.now == x.now && y.sluice == x.sluice.(revoked := x.sluice.revoked + fps)
    && x.doing.Revoking? && y.doing == Revoking(x.doing.targets, x.doing.proven + fps)
  }

  lemma OneDenial(x: World, fp: string)
    requires x.mem.Some? && x.doing.Revoking? && fp in x.doing.targets && fp != ""
    ensures Proved(x, Step(x, RevokesTarget(fp, true, Reply(OutcomeRevoked, true), Written)), {fp})
  {
  }

  lemma {:induction false} DenialsProve(x: World, fps: seq<string>)
    requires x.mem.Some? && x.doing.Revoking? && forall fp :: fp in fps ==> fp in x.doing.targets && fp != ""
    ensures Proved(x, Trace(x, Denials(fps)), AsSet(fps))
    decreases |fps|
  {
    if fps == [] {
      assert x.sluice.revoked + AsSet(fps) == x.sluice.revoked && x.doing.proven + AsSet(fps) == x.doing.proven;
    } else {
      var e := RevokesTarget(fps[0], true, Reply(OutcomeRevoked, true), Written);
      var x1 := Step(x, e);
      assert fps[0] in fps && forall fp :: fp in fps[1..] ==> fp in fps;
      OneDenial(x, fps[0]);
      DenialsProve(x1, fps[1..]);
      TraceCons(x, e, Denials(fps[1..]));
      SetOf(fps);
      ProvedTogether(x, x1, Trace(x1, Denials(fps[1..])), {fps[0]}, AsSet(fps[1..]));
    }
  }

  lemma {:induction false} TraceAppend(x: World, a: seq<Event>, b: seq<Event>)
    ensures Trace(x, a + b) == Trace(Trace(x, a), b)
    decreases |a|
  {
    if a == [] {
      assert a + b == b;
    } else {
      assert (a + b)[1..] == a[1..] + b;
      TraceAppend(Step(x, a[0]), a[1..], b);
    }
  }

  lemma SetOf(fps: seq<string>)
    requires fps != []
    ensures AsSet(fps) == {fps[0]} + AsSet(fps[1..])
  {
    assert fps == [fps[0]] + fps[1..];
  }

  lemma ProvedTogether(x: World, y: World, z: World, a: set<string>, b: set<string>)
    requires Proved(x, y, a) && Proved(y, z, b)
    ensures Proved(x, z, a + b)
  {
    assert x.sluice.revoked + a + b == x.sluice.revoked + (a + b) && x.doing.proven + a + b == x.doing.proven + (a + b);
  }

  /** Revoke-by-name that meets no failure removes the instance from memory and
      file, with every credential Sluice ever issued to it denied or expired. */
  lemma RevokeByNameSucceeds(x: World, fps: seq<string>)
    requires Inv(x) && x.mem.Some? && x.doing.Idle? && !HasRenewing(x.mem.value)
    requires AsSet(fps) == LiveFps(x.mem.value, x.now)
    ensures
      var y := Trace(x, [BeginRevoke] + (Denials(fps) + [PrunesRevoked(Written)]));
      && y.mem.None? && y.disk.None? && y.doing.Idle? && y.sluice == x.sluice.(revoked := x.sluice.revoked + AsSet(fps))
      && forall op :: op in x.sluice.issued ==> x.sluice.issued[op].fp in y.sluice.revoked || x.now >= x.sluice.issued[op].notAfter
  {
    var x1 := Step(x, BeginRevoke);
    var last := [PrunesRevoked(Written)];
    TraceCons(x, BeginRevoke, Denials(fps) + last);
    LiveFpsComplete(x.mem.value, x.sluice, x.now);
    assert x1 == x.(doing := Revoking(AsSet(fps), {}));
    forall fp | fp in fps ensures fp in x1.doing.targets && fp != "" { assert fp in AsSet(fps); }
    DenialsProve(x1, fps);
    TraceAppend(x1, Denials(fps), last);
    var y := Trace(x1, Denials(fps));
    assert last == [PrunesRevoked(Written)] + [] && {} + AsSet(fps) == AsSet(fps);
    TraceCons(y, PrunesRevoked(Written), []);
    forall op | op in x.sluice.issued ensures x.sluice.issued[op].fp in y.sluice.revoked || x.now >= x.sluice.issued[op].notAfter {
      if x.sluice.Trusts(op, x.now) { assert x.sluice.issued[op].fp in AsSet(fps); }
    }
  }

  /** A delete of an instance with nothing unresolved takes it out of memory exactly
      when the save is clean, and out of the file unless it was not written. */
  lemma DeleteSucceedsIff(x: World, w: Write)
    requires x.mem.Some? && x.doing.Idle? && !HasRenewing(x.mem.value)
    ensures
      var y := Step(x, Deletes(w));
      && y.mem == (if w.Written? then None else x.mem)
      && y.disk == (if w.NotWritten? then x.disk else None)
  {
  }
}
