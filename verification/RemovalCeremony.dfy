/** What delete and revoke-by-name do to the registry before the instance goes
    (cdr_lineage.go:476-517, cdr_ui.go:903-931, cdr_ui.go:1042-1057). */
module RemovalCeremony {
  import opened Wrappers
  import opened Lineage
  import opened InstanceRegistry
  import opened TrustProtocol

  /** Sluice's answer to EnrollStatus over the bootstrap channel. */
  datatype Status =
    | Unreachable
    | Unspecified
    | NotIssued
    | Issued(fp: string, revoked: bool, wellFormed: bool)

  /** The edit an answer leads to, if it settles the operation at all. */
  function Settles(s: int, a: Status): Option<LineageOp> {
    match a
    case NotIssued => Some(DropOp(s))
    case Issued(fp, revoked, true) => Some(RecordOp(s, fp, 0, if revoked then Revoked else Orphaned))
    case _ => None
  }

  /** An answer that says what Sluice knows. */
  ghost predicate Honest(sl: Sluice, op: string, a: Status) {
    match a
    case NotIssued => op !in sl.issued
    case Issued(fp, revoked, _) => op in sl.issued && sl.issued[op].fp == fp && (revoked <==> fp in sl.revoked)
    case _ => true
  }

  /** Resolves the instance's renewing generation before a destructive step.
      With the one-unresolved invariant the loop edits at most once: success
      leaves no renewing generation, failure leaves memory untouched. */
  method ResolveUnresolved(reg: CDRInstanceRegistry, name: string, ask: string -> Status, w: string -> Write)
    returns (out: Option<Instance>)
    requires Lookup(reg.instances, name).Some? && WellFormed(Lookup(reg.instances, name).value)
    modifies reg
    ensures out.None? ==> reg.instances == old(reg.instances)
    ensures !HasRenewing(Lookup(old(reg.instances), name).value) ==> out.Some?
    ensures forall g :: g in Lookup(old(reg.instances), name).value.gens && g.state.Renewing? ==>
              (out.Some? <==> (ask(g.op).NotIssued? || (ask(g.op).Issued? && ask(g.op).wellFormed)) && w(g.op).Written?)
    ensures out.Some? ==> Lookup(reg.instances, name) == out && !HasRenewing(out.value)
    ensures out.Some? && !HasRenewing(Lookup(old(reg.instances), name).value) ==> reg.View() == old(reg.View())
    ensures forall g :: out.Some? && g in Lookup(old(reg.instances), name).value.gens && g.state.Renewing? ==>
              var o := Settles(g.seqNo, ask(g.op));
              o.Some? && (reg.View(), Ok(out.value)) == Mutate(old(reg.View()), name, o.value, Written)
  {
    var i0 := reg.FindLocked(name);
    var snapshot := reg.instances[i0];
    ghost var before := reg.View();
    for i := 0 to |snapshot.gens|
      invariant forall j :: 0 <= j < i ==> !snapshot.gens[j].state.Renewing?
      invariant reg.View() == before
    {
      var g := snapshot.gens[i];
      if !g.state.Renewing? { continue; }
      assert g in snapshot.gens;
      forall h | h in snapshot.gens && h.state.Renewing? ensures h == g { OneRenewing(snapshot, g, h); }
      if g.op == "" { return None; }
      var r: Result<Instance>;
      match ask(g.op) {
        case NotIssued => r := reg.DropUnissuedRenewal(name, g.seqNo, w(g.op));
        case Issued(fp, revoked, true) =>
          r := reg.RecordIssuedCredential(name, g.seqNo, fp, 0, if revoked then Revoked else Orphaned, w(g.op));
        case _ => return None;
      }
      SettledLeavesNoRenewing(snapshot, i, ask(g.op));
      if r.Err? { return None; }
      MutateProjectsSelf(before, name, Settles(g.seqNo, ask(g.op)).value);
      // No later snapshot entry is renewing, so the scan has nothing left to do.
      return Some(r.value);
    }
    out := Some(snapshot);
  }

  lemma OneRenewing(inst: Instance, g: Generation, h: Generation)
    requires WellFormed(inst) && g in inst.gens && h in inst.gens && g.state.Renewing? && h.state.Renewing?
    ensures g == h
  {
    var k :| 0 <= k < |inst.gens| && inst.gens[k] == g;
    var m :| 0 <= m < |inst.gens| && inst.gens[m] == h;
    assert k != m ==> Clash(inst.gens[k], inst.gens[m]);
  }

  lemma SettledLeavesNoRenewing(inst: Instance, i: nat, a: Status)
    requires WellFormed(inst) && i < |inst.gens| && inst.gens[i].state.Renewing?
    requires Settles(inst.gens[i].seqNo, a).Some?
    ensures Run(Settles(inst.gens[i].seqNo, a).value, inst).Ok?
    ensures !HasRenewing(Run(Settles(inst.gens[i].seqNo, a).value, inst).value)
  {
    var g := inst.gens[i];
    assert g in inst.gens;
    assert forall h :: h in inst.gens && h.state.Renewing? ==> h == g;
    if a.NotIssued? {
      DropKeeps(inst, g.seqNo);
    } else {
      RecordKeeps(inst, g.seqNo, a.fp, 0, if a.revoked then Revoked else Orphaned);
      var j := First(inst.gens, BySeq(g.seqNo));
      assert j >= i || Clash(inst.gens[j], inst.gens[i]);
      assert forall k :: 0 <= k < |inst.gens| && k != i ==> inst.gens[k] in inst.gens && !inst.gens[k].state.Renewing?;
    }
  }

  lemma MutateProjectsSelf(r: Registry, name: string, o: LineageOp)
    requires Lookup(r.mem, name).Some?
    ensures Mutate(r, name, o, Written).1.Ok? ==> Lookup(Mutate(r, name, o, Written).0.mem, name) == Some(Mutate(r, name, o, Written).1.value)
  {
    var i := Find(r.mem, name);
    if Run(o, r.mem[i]).Ok? {
      RunKeepsName(o, r.mem[i]);
      SameNamesSameIndex(r.mem, r.mem[i := Run(o, r.mem[i]).value], name);
    }
  }

  /** Under honest answers a settled operation is exactly the protocol's own
      resolution step. */
  lemma HonestAnswerIsResolution(sl: Sluice, s: int, op: string, a: Status)
    requires Honest(sl, op, a) && Settles(s, a).Some?
    ensures Settles(s, a).value == Resolution(sl, s, op)
  {
  }

  // ─── Revocation with proof ────────────────────────────────────────────────

  predicate RecordedRevoked(inst: Instance, fp: string) {
    exists g :: g in inst.gens && g.fp == fp && g.state.Revoked?
  }

  /** The lineage after the proofs for `fps` were recorded one by one. */
  function MarkAll(inst: Instance, fps: seq<string>): Instance {
    if fps == [] then inst
    else MarkRevoked(MarkAll(inst, fps[..|fps| - 1]), fps[|fps| - 1], 0).value
  }

  lemma {:induction false} MarkAllRecords(inst: Instance, fps: seq<string>)
    requires WellFormed(inst) && forall fp :: fp in fps ==> fp != ""
    ensures WellFormed(MarkAll(inst, fps))
    ensures forall fp :: fp in fps ==> RecordedRevoked(MarkAll(inst, fps), fp)
    ensures forall fp :: RecordedRevoked(inst, fp) ==> RecordedRevoked(MarkAll(inst, fps), fp)
  {
    if fps != [] {
      var front, last := fps[..|fps| - 1], fps[|fps| - 1];
      assert fps == front + [last];
      assert last in fps && forall fp :: fp in front ==> fp in front + [last];
      MarkAllRecords(inst, front);
      MarkKeeps(MarkAll(inst, front), last, 0);
      forall fp | RecordedRevoked(MarkAll(inst, front), fp)
        ensures RecordedRevoked(MarkAll(inst, fps), fp)
      {
        MarkKeepsRecorded(MarkAll(inst, front), last, fp);
      }
    }
  }

  lemma MarkKeepsRecorded(inst: Instance, fp: string, earlier: string)
    requires WellFormed(inst) && fp != "" && RecordedRevoked(inst, earlier)
    ensures RecordedRevoked(MarkRevoked(inst, fp, 0).value, earlier)
  {
    MarkKeeps(inst, fp, 0);
    var g :| g in inst.gens && g.fp == earlier && g.state.Revoked?;
    assert g in Normalize(inst, 0).gens;
  }

  /** Records one proven deny. */
  method RecordProof(reg: CDRInstanceRegistry, name: string, fp: string, w: Write) returns (ok: bool)
    requires Lookup(reg.instances, name).Some? && UniqueNames(reg.instances)
    modifies reg
    ensures ok <==> w.Written?
    ensures UniqueNames(reg.instances)
    ensures Lookup(reg.instances, name) ==
              if ok then Some(MarkRevoked(Lookup(old(reg.instances), name).value, fp, 0).value) else Lookup(old(reg.instances), name)
  {
    ghost var before := reg.View();
    var r := reg.MarkCredentialRevoked(name, fp, 0, w);
    MutateProjects(before, name, MarkOp(fp, 0), w, name);
    ok := r.Ok?;
  }

  ghost predicate TruthfulFor(after: nat -> Sluice, end: Sluice, fps: seq<string>, ask: string -> RevokeReply, n: nat)
    requires n <= |fps|
  {
    forall k: nat :: k < n ==> Truthful(after(k), fps[k], ask(fps[k])) && after(k).revoked <= end.revoked
  }

  lemma AllDenied(after: nat -> Sluice, end: Sluice, fps: seq<string>, ask: string -> RevokeReply, n: nat)
    requires n <= |fps| && forall k :: 0 <= k < n ==> Proven(ask(fps[k]))
    ensures TruthfulFor(after, end, fps, ask, n) ==> forall k :: 0 <= k < n ==> fps[k] in end.revoked
  {
    if TruthfulFor(after, end, fps, ask, n) {
      forall k: nat | k < n ensures fps[k] in end.revoked {
        ProvenIffDenied(fps[k], ask(fps[k]));
        assert Truthful(after(k), fps[k], ask(fps[k]));
      }
    }
  }

  /** Revokes every fingerprint in turn, recording each proof before the next:
      the first `done` were proven and are recorded, and the scan stopped at the
      first one whose deny was unproven or whose record could not be saved.  When
      each reply is truthful about Sluice as it then is (`after`) and Sluice takes
      no deny back (`end`), Sluice denies all of the first `done`. */
  method RevokeGenerations(reg: CDRInstanceRegistry, name: string, fps: seq<string>, ask: string -> RevokeReply, w: string -> Write,
                           ghost after: nat -> Sluice, ghost end: Sluice)
    returns (done: nat)
    requires Lookup(reg.instances, name).Some? && UniqueNames(reg.instances)
    modifies reg
    ensures done <= |fps|
    ensures forall k :: 0 <= k < done ==> Proven(ask(fps[k])) && w(fps[k]).Written?
    ensures done < |fps| ==> !(Proven(ask(fps[done])) && w(fps[done]).Written?)
    ensures Lookup(reg.instances, name) == Some(MarkAll(Lookup(old(reg.instances), name).value, fps[..done]))
    ensures TruthfulFor(after, end, fps, ask, done) ==> forall k :: 0 <= k < done ==> fps[k] in end.revoked
  {
    ghost var inst := Lookup(reg.instances, name).value;
    var going := true;
    done := 0;
    while going && done < |fps|
      invariant done <= |fps| && UniqueNames(reg.instances)
      invariant !going ==> done < |fps| && !(Proven(ask(fps[done])) && w(fps[done]).Written?)
      invariant forall k :: 0 <= k < done ==> Proven(ask(fps[k])) && w(fps[k]).Written?
      invariant Lookup(reg.instances, name) == Some(MarkAll(inst, fps[..done]))
      decreases going, |fps| - done
    {
      if !Proven(ask(fps[done])) {
        going := false;
      } else {
        going := RecordProof(reg, name, fps[done], w(fps[done]));
        if going {
          assert fps[..done + 1][..done] == fps[..done];
          done := done + 1;
        }
      }
    }
    AllDenied(after, end, fps, ask, done);
  }
}
