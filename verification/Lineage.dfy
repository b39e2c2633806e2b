/** The credential lineage of one enrolled Sluice instance (cdr_lineage.go).

    Sluice keeps trusting a certificate after it was renewed, so the appliance
    keeps a durable list of every credential generation it was issued.  This
    module gives each lineage operation as a function on values and proves what
    each one keeps; `InstanceRegistry` runs them in place.
 */
module Lineage {

  datatype GenState = Renewing | Staged | Active | Superseded | Orphaned | Revoked

  /** One issued client credential.  `fp` is "" and `notAfter` is 0 when unknown. */
  datatype Generation = Generation(seqNo: int, fp: string, notAfter: int, state: GenState, op: string)
  {
    /** Sluice may still trust this generation. */
    predicate Live(now: int) {
      !state.Revoked? && !(notAfter > 0 && now >= notAfter)
    }

    predicate Unresolved() {
      state.Renewing? || state.Staged?
    }
  }

  /** `dialFp` is the fingerprint of the certificate the pool dials with. */
  datatype Instance = Instance(name: string, dialFp: string, gens: seq<Generation>)

  datatype LineageError = NotFound | RenewalInProgress | LineageFull | GenerationState | SaveFailed

  datatype Result<+T> = Ok(value: T) | Err(error: LineageError)

  const MAX_GENERATIONS := 16

  // ─── Searching ────────────────────────────────────────────────────────────

  /** What a scan over the generations looks for. */
  datatype Probe = BySeq(s: int) | ByRenewingSeq(s: int) | ByFp(fp: string)
  {
    predicate Hits(g: Generation) {
      match this
      case BySeq(s) => g.seqNo == s
      case ByRenewingSeq(s) => g.seqNo == s && g.state.Renewing?
      case ByFp(fp) => g.fp == fp
    }
  }

  /** The first index the probe hits, or `|gens|`. */
  function First(gens: seq<Generation>, p: Probe): (r: nat)
    ensures r <= |gens|
    ensures forall j :: 0 <= j < r ==> !p.Hits(gens[j])
    ensures r < |gens| ==> p.Hits(gens[r])
  {
    if gens == [] then 0
    else if p.Hits(gens[0]) then 0
    else
      var k := First(gens[1..], p);
      assert forall j :: 1 <= j < k + 1 ==> gens[j] == gens[1..][j - 1];
      k + 1
  }

  /** The last index carrying sequence number `s`, or -1. */
  function LastWithSeq(gens: seq<Generation>, s: int): (r: int)
    ensures -1 <= r < |gens|
    ensures r >= 0 ==> gens[r].seqNo == s
    ensures forall j :: r < j < |gens| ==> gens[j].seqNo != s
  {
    if gens == [] then -1
    else if gens[|gens| - 1].seqNo == s then |gens| - 1
    else LastWithSeq(gens[..|gens| - 1], s)
  }

  /** One more than the largest sequence number, and at least 1. */
  function NextSeq(gens: seq<Generation>): (r: int)
    ensures r >= 1
    ensures forall g :: g in gens ==> g.seqNo < r
  {
    if gens == [] then 1
    else
      var n := NextSeq(gens[..|gens| - 1]);
      var last := gens[|gens| - 1];
      assert forall g :: g in gens ==> g in gens[..|gens| - 1] || g == last;
      if last.seqNo >= n then last.seqNo + 1 else n
  }

  // ─── Operations ───────────────────────────────────────────────────────────

  /** A pre-lineage entry gets the one generation it dials with.
      `certExpiry` is what the certificate on disk says, 0 when unreadable. */
  function Normalize(inst: Instance, certExpiry: int): Instance {
    if |inst.gens| > 0 || inst.dialFp == "" then inst
    else inst.(gens := [Generation(1, inst.dialFp, certExpiry, Active, "")])
  }

  /** Drops the first `excess` generations that are no longer live. */
  function DropDead(gens: seq<Generation>, now: int, excess: int): seq<Generation> {
    if gens == [] then []
    else if excess > 0 && !gens[0].Live(now) then DropDead(gens[1..], now, excess - 1)
    else [gens[0]] + DropDead(gens[1..], now, excess)
  }

  function Prune(gens: seq<Generation>, now: int): seq<Generation> {
    if |gens| < MAX_GENERATIONS then gens
    else DropDead(gens, now, |gens| - (MAX_GENERATIONS - 1))
  }

  function Stage(inst: Instance, op: string, now: int, certExpiry: int): Result<Instance> {
    var inst := Normalize(inst, certExpiry);
    if exists g :: g in inst.gens && g.Unresolved() then Err(RenewalInProgress)
    else
      var gens := Prune(inst.gens, now);
      if |gens| >= MAX_GENERATIONS then Err(LineageFull)
      else Ok(inst.(gens := gens + [Generation(NextSeq(gens), "", 0, Renewing, op)]))
  }

  /** The sequence number a successful `Stage` hands to its caller. */
  function StagedSeq(inst: Instance, now: int, certExpiry: int): int {
    NextSeq(Prune(Normalize(inst, certExpiry).gens, now))
  }

  function RecordIssued(inst: Instance, s: int, fp: string, notAfter: int, state: GenState): Result<Instance> {
    var i := First(inst.gens, BySeq(s));
    if i == |inst.gens| || !inst.gens[i].state.Renewing? then Err(GenerationState)
    else Ok(inst.(gens := inst.gens[i := inst.gens[i].(state := state, fp := fp, notAfter := notAfter)]))
  }

  function Demoted(g: Generation): Generation {
    if g.state.Active? then g.(state := Superseded) else g
  }

  function Activate(inst: Instance, s: int): Result<Instance> {
    var t := LastWithSeq(inst.gens, s);
    if t < 0 || !inst.gens[t].state.Staged? then Err(GenerationState)
    else Ok(inst.(
      dialFp := inst.gens[t].fp,
      gens := seq(|inst.gens|, i requires 0 <= i < |inst.gens| =>
        if i == t then inst.gens[i].(state := Active) else Demoted(inst.gens[i]))))
  }

  function DropUnissued(inst: Instance, s: int): Result<Instance> {
    var i := First(inst.gens, ByRenewingSeq(s));
    if i == |inst.gens| then Err(GenerationState)
    else Ok(inst.(gens := inst.gens[..i] + inst.gens[i + 1..]))
  }

  function MarkRevoked(inst: Instance, fp: string, certExpiry: int): Result<Instance> {
    var inst := Normalize(inst, certExpiry);
    var i := First(inst.gens, ByFp(fp));
    if i < |inst.gens| then Ok(inst.(gens := inst.gens[i := inst.gens[i].(state := Revoked)]))
    else Ok(inst.(gens := inst.gens + [Generation(NextSeq(inst.gens), fp, 0, Revoked, "")]))
  }

  /** The boot reconcile gives up on a staged generation with no local material. */
  function Orphan(inst: Instance, s: int): Result<Instance> {
    Ok(inst.(gens := seq(|inst.gens|, i requires 0 <= i < |inst.gens| =>
      if inst.gens[i].seqNo == s then inst.gens[i].(state := Orphaned) else inst.gens[i])))
  }

  // ─── Structure every operation keeps ──────────────────────────────────────

  /** Two generations that may not stand in one lineage: the same sequence
      number, both active, or both unresolved. */
  predicate Clash(a: Generation, b: Generation) {
    || a.seqNo == b.seqNo
    || (a.state.Active? && b.state.Active?)
    || (a.Unresolved() && b.Unresolved())
  }

  predicate Apart(gens: seq<Generation>) {
    forall i, j :: 0 <= i < j < |gens| ==> !Clash(gens[i], gens[j])
  }

  /** At most one active and at most one unresolved generation, sequence numbers
      pairwise distinct, the active generation is the one dialled, and a renewal
      whose outcome is unknown has no fingerprint yet. */
  predicate WellFormed(inst: Instance) {
    && Apart(inst.gens)
    && (forall g :: g in inst.gens && g.state.Active? ==> g.fp == inst.dialFp)
    && (forall g :: g in inst.gens && g.state.Renewing? ==> g.fp == "" && g.notAfter == 0 && g.op != "")
  }

  lemma {:induction false} DropDeadKeepsLive(gens: seq<Generation>, now: int, excess: int)
    ensures forall g :: g in DropDead(gens, now, excess) ==> g in gens
    ensures forall g :: g in gens && g.Live(now) ==> g in DropDead(gens, now, excess)
    ensures |DropDead(gens, now, excess)| <= |gens|
  {
    if gens != [] {
      var e := if excess > 0 && !gens[0].Live(now) then excess - 1 else excess;
      DropDeadKeepsLive(gens[1..], now, e);
      assert gens == [gens[0]] + gens[1..];
    }
  }

  lemma ApartCons(g: Generation, gens: seq<Generation>)
    requires Apart(gens) && forall h :: h in gens ==> !Clash(g, h)
    ensures Apart([g] + gens)
  {
  }

  lemma ApartAppend(gens: seq<Generation>, g: Generation)
    requires Apart(gens) && forall h :: h in gens ==> !Clash(h, g)
    ensures Apart(gens + [g])
  {
  }

  lemma {:induction false} DropDeadKeepsApart(gens: seq<Generation>, now: int, excess: int)
    requires Apart(gens)
    ensures Apart(DropDead(gens, now, excess))
  {
    if gens != [] {
      var e := if excess > 0 && !gens[0].Live(now) then excess - 1 else excess;
      DropDeadKeepsApart(gens[1..], now, e);
      if e == excess {
        DropDeadKeepsLive(gens[1..], now, e);
        assert forall h :: h in gens[1..] ==> !Clash(gens[0], h);
        ApartCons(gens[0], DropDead(gens[1..], now, e));
      }
    }
  }

  /** The dropped generations are the oldest dead ones: up to some cut every
      dead generation is gone, and from the cut on nothing is. */
  lemma {:induction false} DropDeadIsOldestFirst(gens: seq<Generation>, now: int, excess: int) returns (cut: nat)
    ensures cut <= |gens|
    ensures DropDead(gens, now, excess) == DropDead(gens[..cut], now, cut) + gens[cut..]
    ensures forall g :: g in DropDead(gens[..cut], now, cut) ==> g.Live(now)
  {
    if gens == [] {
      cut := 0;
    } else if excess <= 0 {
      cut := 0;
      assert gens[..0] == [];
      DropNothing(gens, now, excess);
    } else {
      var dead := !gens[0].Live(now);
      var k := DropDeadIsOldestFirst(gens[1..], now, if dead then excess - 1 else excess);
      cut := k + 1;
      assert gens[..cut][1..] == gens[1..][..k] && gens[cut..] == gens[1..][k..];
      DropAllSaturates(gens[1..][..k], now, k, k + 1);
    }
  }

  /** Exactly as many are dropped as asked for, while dead ones last. */
  lemma {:induction false} DropDeadLength(gens: seq<Generation>, now: int, excess: nat)
    ensures var dead := |DropDead(gens, now, |gens|)|;
            |DropDead(gens, now, excess)| == if |gens| - dead <= excess then dead else |gens| - excess
  {
    if gens != [] {
      if !gens[0].Live(now) {
        DropDeadLength(gens[1..], now, if excess > 0 then excess - 1 else 0);
        if excess == 0 { DropNothing(gens, now, 0); DropNothing(gens[1..], now, 0); }
      } else {
        DropDeadLength(gens[1..], now, excess);
        DropAllSaturates(gens[1..], now, |gens| - 1, |gens|);
      }
    }
  }

  lemma {:induction false} DropNothing(gens: seq<Generation>, now: int, excess: int)
    requires excess <= 0
    ensures DropDead(gens, now, excess) == gens
  {
    if gens != [] { DropNothing(gens[1..], now, excess); }
  }

  lemma {:induction false} DropAllSaturates(gens: seq<Generation>, now: int, a: int, b: int)
    requires a >= |gens| && b >= |gens|
    ensures DropDead(gens, now, a) == DropDead(gens, now, b)
  {
    if gens != [] {
      if !gens[0].Live(now) { DropAllSaturates(gens[1..], now, a - 1, b - 1); }
      else { DropAllSaturates(gens[1..], now, a, b); }
    }
  }

  lemma NormalizeKeeps(inst: Instance, certExpiry: int)
    requires WellFormed(inst)
    ensures
      var post := Normalize(inst, certExpiry);
      && WellFormed(post) && post.name == inst.name && post.dialFp == inst.dialFp
      && (inst.gens != [] || inst.dialFp == "" ==> post == inst)
      && (inst.gens == [] && inst.dialFp != "" ==>
            |post.gens| == 1 && post.gens[0].fp == inst.dialFp && post.gens[0].state.Active? && post.gens[0].notAfter == certExpiry)
    ensures Normalize(Normalize(inst, certExpiry), certExpiry) == Normalize(inst, certExpiry)
  {
  }

  lemma PruneKeeps(inst: Instance, now: int)
    requires WellFormed(inst)
    ensures WellFormed(inst.(gens := Prune(inst.gens, now)))
  {
    if |inst.gens| >= MAX_GENERATIONS {
      var e := |inst.gens| - (MAX_GENERATIONS - 1);
      DropDeadKeepsLive(inst.gens, now, e);
      DropDeadKeepsApart(inst.gens, now, e);
    }
  }

  /** A successful stage adds one renewing generation for `op` under a new
      sequence number, forgets no live generation, keeps the structure and drops
      no more than it must to leave 16 generations; it is refused exactly when a renewal is unresolved
      or 16 generations are all live. */
  lemma StageKeeps(inst: Instance, op: string, now: int, certExpiry: int)
    requires WellFormed(inst) && op != ""
    ensures var pre := Normalize(inst, certExpiry);
            match Stage(inst, op, now, certExpiry)
            case Ok(post) =>
              && WellFormed(post)
              && |post.gens| <= MAX_GENERATIONS
              && post.dialFp == inst.dialFp && post.name == inst.name
              && (forall g :: g in pre.gens && g.Live(now) ==> g in post.gens)
              && (forall g :: g in post.gens ==> g in pre.gens || g == Generation(StagedSeq(inst, now, certExpiry), "", 0, Renewing, op))
              && Generation(StagedSeq(inst, now, certExpiry), "", 0, Renewing, op) in post.gens
              && |post.gens| == (if |pre.gens| < MAX_GENERATIONS then |pre.gens| + 1 else MAX_GENERATIONS)
            case Err(e) =>
              || (e == RenewalInProgress && exists g :: g in pre.gens && g.Unresolved())
              || (e == LineageFull && |DropDead(pre.gens, now, |pre.gens|)| >= MAX_GENERATIONS)
  {
    var pre := Normalize(inst, certExpiry);
    NormalizeKeeps(inst, certExpiry);
    PruneKeeps(pre, now);
    var gens := Prune(pre.gens, now);
    if |pre.gens| >= MAX_GENERATIONS {
      var e := |pre.gens| - (MAX_GENERATIONS - 1);
      DropDeadKeepsLive(pre.gens, now, e);
      DropDeadLength(pre.gens, now, e);
    }
    match Stage(inst, op, now, certExpiry)
    case Err(_) =>
    case Ok(post) =>
      var g := Generation(NextSeq(gens), "", 0, Renewing, op);
      assert post.gens == gens + [g];
      assert forall h :: h in gens ==> h in pre.gens;
      ApartAppend(gens, g);
  }

  /** Recording names exactly the generation with that sequence number. */
  lemma RecordKeeps(inst: Instance, s: int, fp: string, notAfter: int, state: GenState)
    requires WellFormed(inst)
    requires state.Staged? || state.Orphaned? || state.Revoked?
    ensures var i := First(inst.gens, BySeq(s));
            match RecordIssued(inst, s, fp, notAfter, state)
            case Ok(post) =>
              && WellFormed(post)
              && |post.gens| == |inst.gens| && i < |inst.gens|
              && post.dialFp == inst.dialFp && post.name == inst.name
              && inst.gens[i].state.Renewing?
              && post.gens[i] == inst.gens[i].(state := state, fp := fp, notAfter := notAfter)
              && (forall j :: 0 <= j < |inst.gens| && j != i ==> post.gens[j] == inst.gens[j])
            case Err(e) => forall g :: g in inst.gens && g.seqNo == s ==> !g.state.Renewing?
  {
  }

  lemma ActivateKeeps(inst: Instance, s: int)
    requires WellFormed(inst)
    ensures match Activate(inst, s)
            case Ok(post) =>
              && WellFormed(post)
              && |post.gens| == |inst.gens| && post.name == inst.name
              && (forall i :: 0 <= i < |inst.gens| ==>
                    && post.gens[i].fp == inst.gens[i].fp && post.gens[i].op == inst.gens[i].op
                    && post.gens[i].notAfter == inst.gens[i].notAfter && post.gens[i].seqNo == inst.gens[i].seqNo
                    && post.gens[i].state == (if inst.gens[i].seqNo == s then Active
                                              else if inst.gens[i].state.Active? then Superseded
                                              else inst.gens[i].state))
              && (exists g :: g in inst.gens && g.seqNo == s && g.state.Staged? && post.dialFp == g.fp)
            case Err(e) => forall g :: g in inst.gens && g.seqNo == s ==> !g.state.Staged?
  {
    match Activate(inst, s)
    case Err(_) =>
    case Ok(post) =>
      var t := LastWithSeq(inst.gens, s);
      assert inst.gens[t] in inst.gens;
      forall g | g in post.gens && g.state.Renewing?
        ensures g.fp == "" && g.notAfter == 0 && g.op != ""
      {
        var i :| 0 <= i < |post.gens| && post.gens[i] == g;
        assert inst.gens[i] in inst.gens;
      }
  }

  lemma DropKeeps(inst: Instance, s: int)
    requires WellFormed(inst)
    ensures match DropUnissued(inst, s)
            case Ok(post) =>
              && WellFormed(post)
              && post.dialFp == inst.dialFp && post.name == inst.name
              && (exists d :: d in inst.gens && d.seqNo == s && d.state.Renewing? && d !in post.gens
                    && forall g :: g in inst.gens <==> g in post.gens || g == d)
            case Err(e) => forall g :: g in inst.gens && g.seqNo == s ==> !g.state.Renewing?
  {
    var i := First(inst.gens, ByRenewingSeq(s));
    if i < |inst.gens| { CutKeepsApart(inst.gens, i); }
  }

  /** Taking one generation out of a list of pairwise different ones. */
  lemma CutKeepsApart(gens: seq<Generation>, i: nat)
    requires Apart(gens) && i < |gens|
    ensures var rest := gens[..i] + gens[i + 1..];
            && Apart(rest) && gens[i] !in rest
            && forall g :: g in gens <==> g in rest || g == gens[i]
  {
    var rest := gens[..i] + gens[i + 1..];
    assert gens == gens[..i] + [gens[i]] + gens[i + 1..];
    assert forall k :: 0 <= k < |rest| ==> rest[k] == if k < i then gens[k] else gens[k + 1];
  }

  lemma MarkKeeps(inst: Instance, fp: string, certExpiry: int)
    requires WellFormed(inst) && fp != ""
    ensures var pre := Normalize(inst, certExpiry);
            var r := MarkRevoked(inst, fp, certExpiry);
            && r.Ok?
            && var post := r.value;
            && WellFormed(post)
            && post.dialFp == inst.dialFp && post.name == inst.name
            && (exists g :: g in post.gens && g.fp == fp && g.state.Revoked?)
            && (forall g :: g in pre.gens && g.fp != fp ==> g in post.gens)
            && (forall g :: g in post.gens ==> g in pre.gens || (g.fp == fp && g.state.Revoked?))
            && (forall g :: g in pre.gens && g.fp == fp ==> exists h :: h in post.gens && h.fp == fp)
  {
    var pre := Normalize(inst, certExpiry);
    NormalizeKeeps(inst, certExpiry);
    var i := First(pre.gens, ByFp(fp));
    var post := MarkRevoked(inst, fp, certExpiry).value;
    if i < |pre.gens| {
      assert post.gens[i].fp == fp && post.gens[i] in post.gens;
      assert forall k :: 0 <= k < |pre.gens| && k != i ==> post.gens[k] == pre.gens[k];
    } else {
      var g := Generation(NextSeq(pre.gens), fp, 0, Revoked, "");
      assert post.gens == pre.gens + [g];
      ApartAppend(pre.gens, g);
    }
  }

  /** Marking changes nothing but the state of one holder, or appends one record. */
  lemma MarkTouchesOne(inst: Instance, fp: string, certExpiry: int)
    ensures
      var pre, post := Normalize(inst, certExpiry), MarkRevoked(inst, fp, certExpiry).value;
      && |post.gens| == |pre.gens| + (if exists g :: g in pre.gens && g.fp == fp then 0 else 1)
      && forall k :: 0 <= k < |pre.gens| ==> post.gens[k] == pre.gens[k] || (pre.gens[k].fp == fp && post.gens[k] == pre.gens[k].(state := Revoked))
  {
    var pre := Normalize(inst, certExpiry);
    var i := First(pre.gens, ByFp(fp));
    if i < |pre.gens| { assert pre.gens[i] in pre.gens; }
  }

  lemma OrphanKeeps(inst: Instance, s: int)
    requires WellFormed(inst)
    requires forall g :: g in inst.gens && g.seqNo == s ==> g.state.Staged?
    ensures WellFormed(Orphan(inst, s).value)
    ensures Orphan(inst, s).value.dialFp == inst.dialFp && Orphan(inst, s).value.name == inst.name
    ensures forall i :: 0 <= i < |inst.gens| && inst.gens[i].seqNo != s ==> Orphan(inst, s).value.gens[i] == inst.gens[i]
    ensures forall g :: g in Orphan(inst, s).value.gens && g.seqNo == s ==> g.state.Orphaned?
    ensures forall i :: 0 <= i < |inst.gens| && inst.gens[i].seqNo == s ==>
              Orphan(inst, s).value.gens[i] == inst.gens[i].(state := Orphaned)
  {
    var post := Orphan(inst, s).value;
    forall g | g in post.gens && g.state.Renewing?
      ensures g.fp == "" && g.notAfter == 0 && g.op != ""
    {
      var i :| 0 <= i < |post.gens| && post.gens[i] == g;
      assert inst.gens[i] in inst.gens;
    }
    forall g | g in post.gens && g.state.Active? ensures g.fp == post.dialFp
    {
      var i :| 0 <= i < |post.gens| && post.gens[i] == g;
      assert inst.gens[i] in inst.gens;
    }
  }
}
