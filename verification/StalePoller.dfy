/** Two limits of the lineage protocol.

    The health poller picks a renewing generation from a snapshot, waits for the
    lifecycle lock and then resolves by sequence number alone
    (cdr_health.go:351-389); sequence numbers are reused after a drop
    (cdr_lineage.go:237-242).  And a pre-lineage entry enters the lineage only
    through its recorded fingerprint (cdr_lineage.go:121-133).
 */
module StalePoller {
  import opened Wrappers
  import opened Lineage
  import opened InstanceRegistry
  import opened TrustProtocol

  /** The lineage after the poller acts on a snapshot entry (`s`, `op`). */
  function AfterPoll(inst: Instance, sl: Sluice, s: int, op: string): Instance {
    match Run(Resolution(sl, s, op), inst)
    case Ok(next) => next
    case Err(_) => inst
  }

  /** The entry still stands for the operation it stood for in the snapshot. */
  predicate SnapshotCurrent(inst: Instance, s: int, op: string) {
    forall g :: g in inst.gens && g.seqNo == s && g.state.Renewing? ==> g.op == op
  }

  /** A fingerprint no generation carries: longer than all of theirs. */
  function FreshFp(gens: seq<Generation>): (r: string)
    ensures r != ""
    ensures forall g :: g in gens ==> |g.fp| < |r|
  {
    if gens == [] then "x"
    else
      var r := FreshFp(gens[1..]);
      assert gens == [gens[0]] + gens[1..];
      if |gens[0].fp| < |r| then r else gens[0].fp + "x"
  }

  /** Splitting the poll is safe, whatever Sluice may have issued, if and only
      if the generation now renewing under that sequence number is still the
      operation of the snapshot. */
  lemma SplitPollIsSafeIff(inst: Instance, s: int, op: string, now: int)
    requires WellFormed(inst) && exists g :: g in inst.gens && !g.state.Renewing?
    ensures (forall sl :: Sound(inst, sl, now) ==> Sound(AfterPoll(inst, sl, s, op), sl, now))
            <==> SnapshotCurrent(inst, s, op)
  {
    if SnapshotCurrent(inst, s, op) {
      forall sl | Sound(inst, sl, now)
        ensures Sound(AfterPoll(inst, sl, s, op), sl, now)
      {
        CurrentPollIsSound(inst, sl, s, op, now);
      }
    } else {
      var sl := StalePollForgets(inst, s, op, now);
    }
  }

  lemma CurrentPollIsSound(inst: Instance, sl: Sluice, s: int, op: string, now: int)
    requires Sound(inst, sl, now) && SnapshotCurrent(inst, s, op)
    ensures Sound(AfterPoll(inst, sl, s, op), sl, now)
  {
    if g :| g in inst.gens && g.seqNo == s && g.state.Renewing? {
      ResolutionKeepsSound(inst, sl, now, s, op);
    } else {
      assert Run(Resolution(sl, s, op), inst).Err?;
    }
  }

  /** A Sluice that issued an unseen credential for a renewing generation's
      operation and denies exactly what the lineage calls revoked. */
  function IssuedFor(inst: Instance, op: string, now: int): Sluice {
    Sluice(map[op := Cred(FreshFp(inst.gens), now + 1)], set h | h in inst.gens && h.state.Revoked? :: h.fp)
  }

  lemma IssuedForIsSound(inst: Instance, op: string, now: int)
    requires WellFormed(inst) && RenewingFor(inst, op) && exists g :: g in inst.gens && !g.state.Renewing?
    ensures Sound(inst, IssuedFor(inst, op, now), now) && IssuedFor(inst, op, now).Trusts(op, now)
  {
    var sl, unseen := IssuedFor(inst, op, now), FreshFp(inst.gens);
    forall h | h in inst.gens ensures h.fp != unseen { assert |h.fp| < |unseen|; }
    assert unseen !in sl.revoked;
  }

  /** A stale poll drops the intent of a different operation; if Sluice issued
      for that one, nothing names its credential any more. */
  lemma StalePollForgets(inst: Instance, s: int, op: string, now: int) returns (sl: Sluice)
    requires WellFormed(inst) && !SnapshotCurrent(inst, s, op)
    requires exists g :: g in inst.gens && !g.state.Renewing?
    ensures Sound(inst, sl, now)
    ensures !NoForgottenTrust(AfterPoll(inst, sl, s, op), sl, now)
  {
    var g :| g in inst.gens && g.seqNo == s && g.state.Renewing? && g.op != op;
    assert RenewingFor(inst, g.op);
    sl := IssuedFor(inst, g.op, now);
    IssuedForIsSound(inst, g.op, now);
    StaleDropLosesIt(inst, sl, g, op);
    assert sl.Trusts(g.op, now);
  }

  lemma StaleDropLosesIt(inst: Instance, sl: Sluice, g: Generation, op: string)
    requires WellFormed(inst) && g in inst.gens && g.state.Renewing? && g.op != op && op !in sl.issued
    ensures !RenewingFor(AfterPoll(inst, sl, g.seqNo, op), g.op)
    ensures !Named(AfterPoll(inst, sl, g.seqNo, op), FreshFp(inst.gens))
  {
    DropKeeps(inst, g.seqNo);
    var post := AfterPoll(inst, sl, g.seqNo, op);
    assert post == DropUnissued(inst, g.seqNo).value;
    forall h | h in post.gens ensures h in inst.gens && h.fp != FreshFp(inst.gens) && !h.state.Renewing? {
      assert |h.fp| < |FreshFp(inst.gens)|;
      if h.state.Renewing? { OneRenewing(inst, g, h); }
    }
  }

  lemma OneRenewing(inst: Instance, g: Generation, h: Generation)
    requires WellFormed(inst) && g in inst.gens && h in inst.gens && g.Unresolved() && h.Unresolved()
    ensures g == h
  {
    var i :| 0 <= i < |inst.gens| && inst.gens[i] == g;
    var j :| 0 <= j < |inst.gens| && inst.gens[j] == h;
    assert Clash(inst.gens[i], inst.gens[j]) && Clash(inst.gens[j], inst.gens[i]);
  }

  /** What staging leaves: the pruned list and the new renewing generation. */
  lemma StagedList(inst: Instance, op: string, now: int)
    requires WellFormed(inst) && inst.gens != [] && op != "" && Stage(inst, op, now, 0).Ok?
    ensures
      var gens, s := Prune(inst.gens, now), StagedSeq(inst, now, 0);
      && Stage(inst, op, now, 0).value == inst.(gens := gens + [Generation(s, "", 0, Renewing, op)])
      && gens != [] && |gens| < MAX_GENERATIONS && s == NextSeq(gens)
      && forall g :: g in gens ==> g.seqNo != s && !g.Unresolved()
  {
    PrunedNonEmpty(inst.gens, now);
    DropDeadKeepsLive(inst.gens, now, |inst.gens| - (MAX_GENERATIONS - 1));
  }

  lemma DropUndoesStage(inst: Instance, gens: seq<Generation>, s: int, op: string)
    requires forall g :: g in gens ==> g.seqNo != s
    ensures DropUnissued(inst.(gens := gens + [Generation(s, "", 0, Renewing, op)]), s) == Ok(inst.(gens := gens))
  {
    var all := gens + [Generation(s, "", 0, Renewing, op)];
    assert forall j :: 0 <= j < |gens| ==> all[j] == gens[j] && gens[j] in gens;
    assert all[|gens|] == Generation(s, "", 0, Renewing, op);
    assert First(all, ByRenewingSeq(s)) == |gens|;
    assert all[..|gens|] + all[|gens| + 1..] == gens;
  }

  /** And the stale case arises: dropping an unissued renewal frees its sequence
      number for the next one. */
  lemma SeqIsReusedAfterDrop(inst: Instance, opA: string, opB: string, now: int)
    requires WellFormed(inst) && inst.gens != [] && opA != "" && opB != "" && opA != opB
    requires Stage(inst, opA, now, 0).Ok?
    ensures var s := StagedSeq(inst, now, 0);
            var dropped := DropUnissued(Stage(inst, opA, now, 0).value, s);
            && dropped.Ok?
            && Stage(dropped.value, opB, now, 0).Ok?
            && RenewingAt(Stage(dropped.value, opB, now, 0).value, s, opB)
            && !SnapshotCurrent(Stage(dropped.value, opB, now, 0).value, s, opA)
  {
    var gens, s := Prune(inst.gens, now), StagedSeq(inst, now, 0);
    StagedList(inst, opA, now);
    DropUndoesStage(inst, gens, s, opA);
    var h := Generation(s, "", 0, Renewing, opB);
    assert Stage(inst.(gens := gens), opB, now, 0) == Ok(inst.(gens := gens + [h]));
    assert h in gens + [h];
  }

  lemma PrunedNonEmpty(gens: seq<Generation>, now: int)
    requires gens != []
    ensures Prune(gens, now) != []
  {
    if |gens| >= MAX_GENERATIONS { DropDeadLength(gens, now, |gens| - (MAX_GENERATIONS - 1)); }
  }

  // ─── Pre-lineage entries ──────────────────────────────────────────────────

  /** One complete renewal of `inst`. */
  function Renewed(inst: Instance, op: string, fp: string, expiry: int, now: int, certExpiry: int): Result<Instance> {
    match Stage(inst, op, now, certExpiry)
    case Err(e) => Err(e)
    case Ok(a) =>
      var s := StagedSeq(inst, now, certExpiry);
      match RecordIssued(a, s, fp, expiry, Staged)
      case Err(e) => Err(e)
      case Ok(b) => Activate(b, s)
  }

  /** After the first renewal of a pre-lineage entry, a whole-lineage revocation
      still reaches the predecessor if and only if the entry had recorded its
      fingerprint. */
  lemma LegacyPredecessorTargetedIff(inst: Instance, prior: string, op: string, fp: string, now: int, certExpiry: int)
    requires inst.gens == [] && (inst.dialFp == "" || inst.dialFp == prior)
    requires prior != "" && op != "" && fp != "" && fp != prior && (certExpiry == 0 || certExpiry > now)
    ensures Renewed(inst, op, fp, 0, now, certExpiry).Ok?
    ensures prior in LiveFps(Renewed(inst, op, fp, 0, now, certExpiry).value, now) <==> inst.dialFp == prior
    ensures fp in LiveFps(Renewed(inst, op, fp, 0, now, certExpiry).value, now)
  {
    var pre := Normalize(inst, certExpiry);
    var n := |pre.gens|;
    var s := StagedSeq(inst, now, certExpiry);
    var a := Stage(inst, op, now, certExpiry).value;
    assert a.gens[n] == Generation(s, "", 0, Renewing, op);
    assert First(a.gens, BySeq(s)) == n;
    var b := RecordIssued(a, s, fp, 0, Staged).value;
    assert LastWithSeq(b.gens, s) == n;
    var c := Activate(b, s).value;
    assert c.gens[n].fp == fp && c.gens[n] in c.gens;
    if inst.dialFp == prior {
      assert c.gens[0].fp == prior && c.gens[0] in c.gens;
    } else {
      assert c.gens == [c.gens[0]];
    }
  }
}
