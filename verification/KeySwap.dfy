/** The two-file PEM swap of a renewal and its boot-time completion
    (cdr_health.go:314-341, cdr_lineage.go:375-421).

    A bundle is the certificate and key one issuance returned.  A file is
    absent, whole, or torn: os.WriteFile truncates before it writes, so a crash
    inside it leaves a torn file; os.Rename is atomic.
 */
module KeySwap {
  import L = Lineage

  type Bundle = nat

  datatype File = Absent | Torn | Whole(b: Bundle)

  datatype Disk = Disk(cert: File, key: File, certTmp: File, keyTmp: File)

  /** What becomes of the staged generation. */
  datatype Verdict = StillStaged | Activated | Orphaned

  // ─── Installing a renewed bundle ──────────────────────────────────────────

  /** Where a crash, or a failing call, can interrupt the install. */
  datatype Point =
    | BeforeWrites | InCertWrite | AfterCertWrite | InKeyWrite | AfterKeyWrite | AfterCertRename | AfterKeyRename

  /** The disk at that point of installing `b` over `d`. */
  function DiskAt(d: Disk, b: Bundle, p: Point): Disk {
    match p
    case BeforeWrites => d
    case InCertWrite => d.(certTmp := Torn)
    case AfterCertWrite => d.(certTmp := Whole(b))
    case InKeyWrite => d.(certTmp := Whole(b), keyTmp := Torn)
    case AfterKeyWrite => d.(certTmp := Whole(b), keyTmp := Whole(b))
    case AfterCertRename => d.(cert := Whole(b), certTmp := Absent, keyTmp := Whole(b))
    case AfterKeyRename => d.(cert := Whole(b), key := Whole(b), certTmp := Absent, keyTmp := Absent)
  }

  /** How one file operation of the install ends. */
  datatype Fault = Fine | FailsClean | FailsTorn

  datatype Faults = Faults(certWrite: Fault, encodeFails: bool, keyWrite: Fault, certRenameFails: bool, keyRenameFails: bool)

  predicate ReachesKeyWrite(f: Faults) {
    f.certWrite.Fine? && !f.encodeFails
  }

  predicate Succeeds(f: Faults) {
    ReachesKeyWrite(f) && f.keyWrite.Fine? && !f.certRenameFails && !f.keyRenameFails
  }

  /** The disk an install with these failures leaves behind. */
  function Install(d: Disk, b: Bundle, f: Faults): Disk {
    if f.certWrite.FailsClean? then d
    else if f.certWrite.FailsTorn? then DiskAt(d, b, InCertWrite)
    else if f.encodeFails || f.keyWrite.FailsClean? then d.(certTmp := Absent)
    else if f.keyWrite.FailsTorn? then d.(certTmp := Absent, keyTmp := Torn)
    else if f.certRenameFails then DiskAt(d, b, AfterKeyWrite)
    else if f.keyRenameFails then DiskAt(d, b, AfterCertRename)
    else DiskAt(d, b, AfterKeyRename)
  }

  // ─── Completing it at boot ────────────────────────────────────────────────

  /** An error-free finishStagedRenewal for the staged bundle `b`. */
  function Recover(d: Disk, b: Bundle): (Disk, Verdict) {
    if d.cert == Whole(b) then
      (if d.keyTmp.Absent? then d else d.(key := d.keyTmp, keyTmp := Absent), Activated)
    else if d.certTmp != Whole(b) || d.keyTmp.Absent? then (d, Orphaned)
    else (d.(cert := d.certTmp, certTmp := Absent, key := d.keyTmp, keyTmp := Absent), Activated)
  }

  /** Disks a recovery passes through; a crash can stop it at any of them. */
  predicate RecoveryStop(d: Disk, b: Bundle, d': Disk) {
    || d' == d
    || d' == Recover(d, b).0
    || (d.cert != Whole(b) && d.certTmp == Whole(b) && !d.keyTmp.Absent? && d' == d.(cert := d.certTmp, certTmp := Absent))
  }

  /** Any number of recoveries cut short, one after the other. */
  ghost predicate Interrupted(d: Disk, b: Bundle, n: nat, d': Disk)
    decreases n
  {
    if n == 0 then d' == d
    else exists m :: RecoveryStop(d, b, m) && Interrupted(m, b, n - 1, d')
  }

  /** Certificate and key come from one bundle, and the staged generation is
      active exactly when that bundle is the new one. */
  predicate Consistent(d: Disk, v: Verdict, b: Bundle) {
    && d.cert.Whole? && d.key == d.cert
    && (v.Activated? <==> d.cert == Whole(b))
    && (v.Orphaned? <==> d.cert != Whole(b))
  }

  /** A disk from which every interrupted recovery still ends consistently. */
  predicate Safe(d: Disk, b: Bundle) {
    if d.cert == Whole(b) then d.keyTmp == Whole(b) || (d.keyTmp.Absent? && d.key == Whole(b))
    else if d.certTmp == Whole(b) && !d.keyTmp.Absent? then d.keyTmp == Whole(b)
    else d.cert.Whole? && d.key == d.cert
  }

  lemma RecoverStopKeepsSafe(d: Disk, b: Bundle, d': Disk)
    requires Safe(d, b) && RecoveryStop(d, b, d')
    ensures Safe(d', b)
  {
  }

  lemma {:induction false} InterruptedKeepsSafe(d: Disk, b: Bundle, n: nat, d': Disk)
    requires Safe(d, b) && Interrupted(d, b, n, d')
    ensures Safe(d', b)
    decreases n
  {
    if n > 0 {
      var m :| RecoveryStop(d, b, m) && Interrupted(m, b, n - 1, d');
      RecoverStopKeepsSafe(d, b, m);
      InterruptedKeepsSafe(m, b, n - 1, d');
    }
  }

  /** Safe is exact: a boot that runs to its end is consistent if and only if
      the disk it starts from is safe. */
  lemma SafeIffConsistent(d: Disk, b: Bundle)
    ensures Safe(d, b) <==> Consistent(Recover(d, b).0, Recover(d, b).1, b)
  {
  }

  // ─── Main results ─────────────────────────────────────────────────────────

  /** A renewal starts from a working pair. */
  predicate Running(d: Disk, a: Bundle) {
    d.cert == Whole(a) && d.key == Whole(a)
  }

  /** Crash-atomic: every crash point outside the key write, every interrupted recovery. */
  ghost predicate SwapIsAtomic(d: Disk, b: Bundle) {
    forall p: Point, n: nat, m ::
      p != InKeyWrite && Interrupted(DiskAt(d, b, p), b, n, m) ==> Consistent(Recover(m, b).0, Recover(m, b).1, b)
  }

  /** The swap is crash-atomic, at every point with atomic key writes and under
      any number of interrupted recoveries, if and only if the renewal starts
      with no leftover key .tmp file. */
  lemma SwapIsAtomicIff(d: Disk, a: Bundle, b: Bundle)
    requires Running(d, a) && a != b && d.keyTmp != Whole(b)
    ensures SwapIsAtomic(d, b) <==> d.keyTmp.Absent?
  {
    if d.keyTmp.Absent? {
      forall p: Point, n: nat, m | p != InKeyWrite && Interrupted(DiskAt(d, b, p), b, n, m)
        ensures Consistent(Recover(m, b).0, Recover(m, b).1, b)
      {
        InterruptedKeepsSafe(DiskAt(d, b, p), b, n, m);
        SafeIffConsistent(m, b);
      }
    } else {
      var x := DiskAt(d, b, AfterCertWrite);
      assert Interrupted(x, b, 0, x);
      assert !Consistent(Recover(x, b).0, Recover(x, b).1, b);
    }
  }

  /** Which bundle survives: the new one exactly from the finished key write on. */
  lemma NewBundleFromKeyWriteOn(d: Disk, a: Bundle, b: Bundle, p: Point)
    requires Running(d, a) && a != b && d.keyTmp.Absent? && p != InKeyWrite
    ensures Recover(DiskAt(d, b, p), b).0.cert ==
            if p.AfterKeyWrite? || p.AfterCertRename? || p.AfterKeyRename? then Whole(b) else Whole(a)
  {
  }

  /** A crash inside the key write is the one point that is never safe: the boot
      finds the new certificate and some key file, and installs the torn key. */
  lemma TornKeyWriteBreaksTheSwap(d: Disk, a: Bundle, b: Bundle)
    requires Running(d, a) && a != b
    ensures var (m, v) := Recover(DiskAt(d, b, InKeyWrite), b);
            m.cert == Whole(b) && m.key == Torn && v == Activated
  {
  }

  /** What an install leaves: the new pair and no temporary file when it succeeds;
      else the old key, under the old certificate or, once that was renamed, the new
      one with the new key still beside it. */
  lemma InstallLeaves(d: Disk, b: Bundle, f: Faults)
    ensures
      var m := Install(d, b, f);
      if Succeeds(f) then m == Disk(Whole(b), Whole(b), Absent, Absent)
      else m.key == d.key && (m.cert == d.cert || (m.cert == Whole(b) && m.keyTmp == Whole(b)))
  {
  }

  // ─── Over sequences of renewals ───────────────────────────────────────────

  datatype Round = Round(b: Bundle, f: Faults)

  /** Renewals one after the other; with `boots`, an error-free boot after each. */
  function Rounds(d: Disk, rs: seq<Round>, boots: bool): Disk
    decreases |rs|
  {
    if rs == [] then d else Rounds(AfterRound(d, rs[0], boots), rs[1..], boots)
  }

  function AfterRound(d: Disk, r: Round, boots: bool): Disk {
    var m := Install(d, r.b, r.f);
    if boots then Recover(m, r.b).0 else m
  }

  predicate TouchesKeyTmp(f: Faults) {
    ReachesKeyWrite(f) && !f.keyWrite.FailsClean?
  }

  /** The install leaves a key .tmp that the boot, if there is one, does not move. */
  predicate LeavesKeyTmp(f: Faults, boots: bool) {
    TouchesKeyTmp(f) && !Succeeds(f) && (boots ==> f.keyWrite.FailsTorn?)
  }

  /** Each renewal is issued a new bundle. */
  predicate NewBundles(d: Disk, rs: seq<Round>) {
    && (forall i :: 0 <= i < |rs| ==> Whole(rs[i].b) != d.cert && Whole(rs[i].b) != d.certTmp)
    && (forall i, j :: 0 <= i < j < |rs| ==> rs[i].b != rs[j].b)
  }

  /** Round `n` left a key .tmp and no later round got to writing it. */
  predicate LeftAt(rs: seq<Round>, boots: bool, n: int) {
    0 <= n < |rs| && LeavesKeyTmp(rs[n].f, boots) && forall m :: n < m < |rs| ==> !TouchesKeyTmp(rs[m].f)
  }

  /** A sequence of renewals ends with a leftover key .tmp if and only if the last
      one that touched it left one: by a torn key write or, when no boot follows,
      also by a failed rename. */
  lemma {:induction false} LeftoverIff(d: Disk, rs: seq<Round>, boots: bool)
    requires NewBundles(d, rs)
    ensures !Rounds(d, rs, boots).keyTmp.Absent? <==>
            (exists n :: LeftAt(rs, boots, n)) || (!d.keyTmp.Absent? && Untouched(rs))
    decreases |rs|
  {
    if rs != [] {
      var d', rest := AfterRound(d, rs[0], boots), rs[1..];
      LeftoverIff(d', rest, boots);
      LeftAtFront(rs, boots);
      assert d'.keyTmp.Absent? <==> if TouchesKeyTmp(rs[0].f) then !LeavesKeyTmp(rs[0].f, boots) else d.keyTmp.Absent?;
    }
  }

  predicate Untouched(rs: seq<Round>) {
    forall m :: 0 <= m < |rs| ==> !TouchesKeyTmp(rs[m].f)
  }

  lemma LeftAtFront(rs: seq<Round>, boots: bool)
    requires rs != []
    ensures (exists n :: LeftAt(rs, boots, n)) <==>
            (LeavesKeyTmp(rs[0].f, boots) && Untouched(rs[1..])) || exists n :: LeftAt(rs[1..], boots, n)
    ensures Untouched(rs) <==> !TouchesKeyTmp(rs[0].f) && Untouched(rs[1..])
  {
    var rest := rs[1..];
    assert forall m :: 1 <= m < |rs| ==> rs[m] == rest[m - 1];
    assert LeftAt(rs, boots, 0) <==> LeavesKeyTmp(rs[0].f, boots) && Untouched(rest);
    forall n | 1 <= n < |rs| ensures LeftAt(rs, boots, n) <==> LeftAt(rest, boots, n - 1) {
      assert forall m :: n - 1 < m < |rest| ==> rest[m] == rs[m + 1];
    }
    if n :| LeftAt(rest, boots, n) { assert LeftAt(rs, boots, n + 1); }
  }

  /** With a boot after each, failing renewals keep one working pair; a leftover key
      .tmp is torn. */
  lemma {:induction false} RoundsKeepRunning(d: Disk, a: Bundle, rs: seq<Round>) returns (a': Bundle)
    requires Running(d, a) && NewBundles(d, rs) && (d.keyTmp.Absent? || d.keyTmp.Torn?)
    ensures Running(Rounds(d, rs, true), a') && (a' == a || exists i :: 0 <= i < |rs| && a' == rs[i].b)
    ensures !Rounds(d, rs, true).keyTmp.Whole?
    decreases |rs|
  {
    if rs == [] { return a; }
    var d' := AfterRound(d, rs[0], true);
    var m := if d'.cert == d.cert then a else rs[0].b;
    a' := RoundsKeepRunning(d', m, rs[1..]);
  }

  /** After any sequence of failing renewals and boots from a clean disk, the next
      swap is crash-atomic if and only if the last round that touched the key .tmp
      did not tear it. */
  lemma NextSwapIsAtomicIff(d: Disk, a: Bundle, rs: seq<Round>, b: Bundle)
    requires Running(d, a) && d.keyTmp.Absent? && NewBundles(d, rs)
    requires a != b && forall i :: 0 <= i < |rs| ==> rs[i].b != b
    ensures SwapIsAtomic(Rounds(d, rs, true), b) <==> !exists n :: LeftAt(rs, true, n)
  {
    var a' := RoundsKeepRunning(d, a, rs);
    SwapIsAtomicIff(Rounds(d, rs, true), a', b);
    LeftoverIff(d, rs, true);
  }

  /** How a renewal comes to start with a leftover: a torn key write is reported as
      failed, the boot orphans the generation and leaves the file, and a crash right
      after the next certificate write then boots the new certificate with the torn
      key. */
  lemma TornKeyTmpOutlivesTheBoot(d: Disk, a: Bundle, b: Bundle, c: Bundle)
    requires Running(d, a) && d.keyTmp.Absent? && a != b && a != c
    ensures
      var m := Install(d, b, Faults(Fine, false, FailsTorn, false, false));
      && Recover(m, b) == (d.(certTmp := Absent, keyTmp := Torn), Orphaned)
      && Recover(DiskAt(Recover(m, b).0, c, AfterCertWrite), c) == (Disk(Whole(c), Torn, Absent, Absent), Activated)
  {
  }

  /** What the boot reconcile writes into the lineage for its verdict. */
  function Settled(inst: L.Instance, s: int, v: Verdict): L.Result<L.Instance> {
    match v
    case Activated => L.Activate(inst, s)
    case Orphaned => L.Orphan(inst, s)
    case StillStaged => L.Ok(inst)
  }

  /** The whole transaction: whichever safe point it was cut at, and however
      often the boot was cut short, an error-free boot leaves one working pair
      on disk, and the staged generation is active if that pair is the new
      bundle and orphaned if it is the old one. */
  lemma CrashedRenewalSettles(d: Disk, a: Bundle, b: Bundle, p: Point, n: nat, m: Disk, inst: L.Instance, i: nat)
    requires Running(d, a) && a != b && d.keyTmp.Absent? && p != InKeyWrite
    requires Interrupted(DiskAt(d, b, p), b, n, m)
    requires L.WellFormed(inst) && i < |inst.gens| && inst.gens[i].state.Staged?
    ensures var (d', v) := Recover(m, b);
            var r := Settled(inst, inst.gens[i].seqNo, v);
            && d'.cert.Whole? && d'.key == d'.cert
            && r.Ok? && L.WellFormed(r.value) && |r.value.gens| == |inst.gens|
            && (d'.cert == Whole(b) ==> r.value.gens[i].state.Active? && r.value.dialFp == inst.gens[i].fp)
            && (d'.cert != Whole(b) ==> r.value.gens[i].state.Orphaned? && r.value.dialFp == inst.dialFp)
  {
    InterruptedKeepsSafe(DiskAt(d, b, p), b, n, m);
    SafeIffConsistent(m, b);
    var s := inst.gens[i].seqNo;
    assert inst.gens[i] in inst.gens;
    assert forall g :: g in inst.gens && g.seqNo == s ==> g == inst.gens[i];
    L.ActivateKeeps(inst, s);
    L.OrphanKeeps(inst, s);
  }

  // ─── The code itself ──────────────────────────────────────────────────────

  /** The four PEM files of one instance. */
  class PemStore {
    var cert: File
    var key: File
    var certTmp: File
    var keyTmp: File

    ghost function View(): Disk
      reads this
    {
      Disk(cert, key, certTmp, keyTmp)
    }

    /** installRenewedPEMs: temporary files, certificate rename, key rename. */
    method InstallRenewedPEMs(b: Bundle, f: Faults) returns (ok: bool)
      modifies this
      ensures View() == Install(old(View()), b, f)
      ensures ok <==> Succeeds(f)
      ensures !ok && old(keyTmp).Absent? && old(View()).cert.Whole? && old(key) == old(cert) != Whole(b) ==> Safe(View(), b)
    {
      if !f.certWrite.Fine? {
        if f.certWrite.FailsTorn? { certTmp := Torn; }
        return false;
      }
      certTmp := Whole(b);
      if f.encodeFails { certTmp := Absent; return false; }
      if !f.keyWrite.Fine? {
        if f.keyWrite.FailsTorn? { keyTmp := Torn; }
        certTmp := Absent;
        return false;
      }
      keyTmp := Whole(b);
      if f.certRenameFails { return false; }
      cert, certTmp := certTmp, Absent;
      if f.keyRenameFails { return false; }
      key, keyTmp := keyTmp, Absent;
      ok := true;
    }

    /** finishStagedRenewal, with renames that may fail. */
    method FinishStagedRenewal(b: Bundle, certRenameFails: bool, keyRenameFails: bool) returns (v: Verdict)
      modifies this
      ensures !certRenameFails && !keyRenameFails ==> (View(), v) == Recover(old(View()), b)
      ensures RecoveryStop(old(View()), b, View())
      ensures v.StillStaged? || (View(), v) == Recover(old(View()), b)
    {
      if cert == Whole(b) {
        if !keyTmp.Absent? {
          if keyRenameFails { return StillStaged; }
          key, keyTmp := keyTmp, Absent;
        }
      } else {
        if certTmp != Whole(b) || keyTmp.Absent? { return Orphaned; }
        if certRenameFails { return StillStaged; }
        cert, certTmp := certTmp, Absent;
        if keyRenameFails { return StillStaged; }
        key, keyTmp := keyTmp, Absent;
      }
      v := Activated;
    }
  }
}
