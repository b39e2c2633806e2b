/** The persisted list of enrolled Sluice instances (cdrstore.go, cdr_lineage.go).

    Every mutator edits the list under the write lock and saves it before it
    answers.  A save has three outcomes, because the atomic file replacement
    under it (internal/fileutil/fileutil.go) can report an error after the new
    file is already in place; the registry rolls its memory back on any error.
 */
module InstanceRegistry {
  import opened Wrappers
  import opened Lineage
  import opened TwoCopies

  datatype Registry = Registry(mem: seq<Instance>, disk: seq<Instance>)

  /** One edit of an instance's lineage, as `mutateLineage` is handed it. */
  datatype LineageOp =
    | StageOp(op: string, now: int, certExpiry: int)
    | RecordOp(s: int, fp: string, notAfter: int, state: GenState)
    | ActivateOp(s: int)
    | DropOp(s: int)
    | MarkOp(fp: string, certExpiry: int)
    | OrphanOp(s: int)

  function Run(o: LineageOp, inst: Instance): Result<Instance> {
    match o
    case StageOp(op, now, certExpiry) => Stage(inst, op, now, certExpiry)
    case RecordOp(s, fp, notAfter, state) => RecordIssued(inst, s, fp, notAfter, state)
    case ActivateOp(s) => Activate(inst, s)
    case DropOp(s) => DropUnissued(inst, s)
    case MarkOp(fp, certExpiry) => MarkRevoked(inst, fp, certExpiry)
    case OrphanOp(s) => Orphan(inst, s)
  }

  /** The index of the named instance, or `|list|`. */
  function Find(list: seq<Instance>, name: string): (r: nat)
    ensures r <= |list|
    ensures forall j :: 0 <= j < r ==> list[j].name != name
    ensures r < |list| ==> list[r].name == name
  {
    if list == [] then 0
    else if list[0].name == name then 0
    else
      var k := Find(list[1..], name);
      assert forall j :: 1 <= j < k + 1 ==> list[j] == list[1..][j - 1];
      k + 1
  }

  /** Memory takes the new list only on a clean write; the file takes it
      whenever it was replaced. */
  function Saved(r: Registry, next: seq<Instance>, w: Write): Registry {
    match w
    case Written => Registry(next, next)
    case NotWritten => r
    case ReplacedNotSynced => Registry(r.mem, next)
  }

  function Mutate(r: Registry, name: string, o: LineageOp, w: Write): (Registry, Result<Instance>) {
    var i := Find(r.mem, name);
    if i == |r.mem| then (r, Err(NotFound))
    else
      match Run(o, r.mem[i])
      case Err(e) => (r, Err(e))
      case Ok(next) =>
        (Saved(r, r.mem[i := next], w), if w.Written? then Ok(next) else Err(SaveFailed))
  }

  function Without(list: seq<Instance>, name: string): seq<Instance> {
    var i := Find(list, name);
    if i == |list| then list else list[..i] + list[i + 1..]
  }

  // ─── What one instance sees of the whole registry ─────────────────────────

  function Lookup(list: seq<Instance>, name: string): Option<Instance> {
    var i := Find(list, name);
    if i == |list| then None else Some(list[i])
  }

  predicate UniqueNames(list: seq<Instance>) {
    forall i, j :: 0 <= i < j < |list| ==> list[i].name != list[j].name
  }

  lemma FindIs(list: seq<Instance>, name: string, i: nat)
    requires i < |list| && list[i].name == name && forall j :: 0 <= j < i ==> list[j].name != name
    ensures Find(list, name) == i
  {
  }

  lemma RunKeepsName(o: LineageOp, inst: Instance)
    ensures Run(o, inst).Ok? ==> Run(o, inst).value.name == inst.name
  {
  }

  /** An edit never renames, so other instances are untouched in memory and get
      their in-memory value on disk when the file is replaced; the edited
      instance itself moves by `Run` alone. */
  lemma MutateProjects(r: Registry, name: string, o: LineageOp, w: Write, other: string)
    requires UniqueNames(r.mem)
    ensures var (r', out) := Mutate(r, name, o, w);
            && UniqueNames(r'.mem)
            && (out.Ok? <==> Lookup(r.mem, name).Some? && Run(o, Lookup(r.mem, name).value).Ok? && w.Written?)
            && (out.Ok? ==> out == Run(o, Lookup(r.mem, name).value))
            && Lookup(r'.mem, other) ==
               (if other == name && out.Ok? then Some(out.value) else Lookup(r.mem, other))
            && (w.NotWritten? || Lookup(r.mem, name).None? || Run(o, Lookup(r.mem, name).value).Err? ==> r'.disk == r.disk)
            && (!w.NotWritten? && Lookup(r.mem, name).Some? && Run(o, Lookup(r.mem, name).value).Ok? ==>
                  Lookup(r'.disk, other) ==
                    if other == name then Some(Run(o, Lookup(r.mem, name).value).value) else Lookup(r.mem, other))
  {
    var i := Find(r.mem, name);
    if i < |r.mem| && Run(o, r.mem[i]).Ok? {
      RunKeepsName(o, r.mem[i]);
      var next := r.mem[i := Run(o, r.mem[i]).value];
      assert forall k :: 0 <= k < |next| ==> next[k].name == r.mem[k].name;
      SameNamesSameIndex(r.mem, next, other);
    }
  }

  lemma SameNamesSameIndex(a: seq<Instance>, b: seq<Instance>, name: string)
    requires |a| == |b| && forall k :: 0 <= k < |a| ==> a[k].name == b[k].name
    ensures Find(a, name) == Find(b, name)
  {
    if Find(a, name) < |a| { FindIs(b, name, Find(a, name)); }
  }

  lemma WithoutProjects(list: seq<Instance>, name: string, other: string)
    requires UniqueNames(list)
    ensures UniqueNames(Without(list, name))
    ensures Lookup(Without(list, name), other) == if other == name then None else Lookup(list, other)
  {
    var i := Find(list, name);
    if i < |list| {
      CutKeepsUnique(list, i);
      if other == name {
        AbsentName(list[..i] + list[i + 1..], name);
      } else {
        CutKeepsOther(list, i, other);
      }
    }
  }

  lemma CutKeepsOther(list: seq<Instance>, i: nat, other: string)
    requires UniqueNames(list) && i < |list| && list[i].name != other
    ensures Lookup(list[..i] + list[i + 1..], other) == Lookup(list, other)
  {
    CutKeepsUnique(list, i);
    var out, j := list[..i] + list[i + 1..], Find(list, other);
    if j < i {
      FindIs(out, other, j);
    } else if j < |list| {
      FindIs(out, other, j - 1);
    } else {
      AbsentName(out, other);
    }
  }

  lemma CutKeepsUnique(list: seq<Instance>, i: nat)
    requires UniqueNames(list) && i < |list|
    ensures
      var out := list[..i] + list[i + 1..];
      && UniqueNames(out)
      && (forall k :: 0 <= k < |out| ==> out[k] == if k < i then list[k] else list[k + 1])
      && (forall k :: 0 <= k < |out| ==> out[k].name != list[i].name)
  {
  }

  lemma AbsentName(list: seq<Instance>, name: string)
    requires forall k :: 0 <= k < |list| ==> list[k].name != name
    ensures Lookup(list, name) == None
  {
  }

  predicate Addable(list: seq<Instance>, inst: Instance, endpoint: string) {
    !Blank(inst.name) && !Blank(endpoint) && Lookup(list, inst.name).None?
  }

  // ─── Memory and file over every run ───────────────────────────────────────

  datatype Event =
    | Edits(name: string, o: LineageOp, w: Write)
    | Adds(inst: Instance, endpoint: string, certExpiry: int, w: Write)
    | Removes(name: string, w: Write)
    | Resaves(w: Write)
    | Restarts

  function Step(r: Registry, e: Event): Registry {
    match e
    case Edits(name, o, w) => Mutate(r, name, o, w).0
    case Adds(inst, endpoint, certExpiry, w) =>
      if Addable(r.mem, inst, endpoint) then Saved(r, r.mem + [Normalize(inst, certExpiry)], w) else r
    case Removes(name, w) => if Lookup(r.mem, name).Some? then Saved(r, Without(r.mem, name), w) else r
    case Resaves(w) => Saved(r, r.mem, w)
    case Restarts => Registry(r.disk, r.disk)
  }

  function Trace(r: Registry, events: seq<Event>): Registry
    decreases |events|
  {
    if events == [] then r else Trace(Step(r, events[0]), events[1..])
  }

  /** What a call does to the two copies: nothing when it is refused, else what
      the atomic write of the edited list does. */
  function EffectOf(r: Registry, e: Event): Effect<seq<Instance>> {
    match e
    case Edits(name, o, w) =>
      var i := Find(r.mem, name);
      if i == |r.mem| || Run(o, r.mem[i]).Err? then Nothing else Writes(r.mem[i := Run(o, r.mem[i]).value], w)
    case Adds(inst, endpoint, certExpiry, w) =>
      if Addable(r.mem, inst, endpoint) then Writes(r.mem + [Normalize(inst, certExpiry)], w) else Nothing
    case Removes(name, w) => if Lookup(r.mem, name).Some? then Writes(Without(r.mem, name), w) else Nothing
    case Resaves(w) => Writes(r.mem, w)
    case Restarts => MemoryOnly(r.disk)
  }

  function Effects(r: Registry, events: seq<Event>): seq<Effect<seq<Instance>>>
    decreases |events|
  {
    if events == [] then [] else [EffectOf(r, events[0])] + Effects(Step(r, events[0]), events[1..])
  }

  lemma {:induction false} TraceIsEffects(r: Registry, events: seq<Event>)
    ensures ApplyAll(Copies(r.mem, r.disk), Effects(r, events)) == Copies(Trace(r, events).mem, Trace(r, events).disk)
    decreases |events|
  {
    if events != [] {
      TraceIsEffects(Step(r, events[0]), events[1..]);
      assert Effects(r, events)[1..] == Effects(Step(r, events[0]), events[1..]);
    }
  }

  /** From equal copies, memory equals the file after a run if and only if no
      different list was saved but reported as failed without a landed save or a
      restart since. */
  lemma MemoryEqualsDiskIff(r: Registry, events: seq<Event>)
    requires r.mem == r.disk
    ensures
      var y := Trace(r, events);
      y.mem == y.disk <==> !exists n: nat :: PartedAt(Copies(r.mem, r.disk), Effects(r, events), n)
  {
    TraceIsEffects(r, events);
    EqualIffNotParted(Copies(r.mem, r.disk), Effects(r, events));
  }

  // ─── The loops of cdr_lineage.go ──────────────────────────────────────────

  method PruneLineage(gens: seq<Generation>, now: int) returns (out: seq<Generation>)
    ensures out == Prune(gens, now)
  {
    if |gens| < MAX_GENERATIONS { return gens; }
    out := [];
    var excess := |gens| - (MAX_GENERATIONS - 1);
    ghost var whole := DropDead(gens, now, excess);
    for i := 0 to |gens|
      invariant out + DropDead(gens[i..], now, excess) == whole
    {
      assert gens[i..][1..] == gens[i + 1..];
      if excess > 0 && !gens[i].Live(now) {
        excess := excess - 1;
      } else {
        assert out + ([gens[i]] + DropDead(gens[i + 1..], now, excess)) == out + [gens[i]] + DropDead(gens[i + 1..], now, excess);
        out := out + [gens[i]];
      }
    }
  }

  method ComputeNextSeq(gens: seq<Generation>) returns (s: int)
    ensures s == NextSeq(gens)
  {
    s := 1;
    for i := 0 to |gens|
      invariant s == NextSeq(gens[..i])
    {
      assert gens[..i + 1][..i] == gens[..i];
      if gens[i].seqNo >= s { s := gens[i].seqNo + 1; }
    }
    assert gens[..|gens|] == gens;
  }

  predicate NamesLive(gens: seq<Generation>, fp: string, now: int) {
    exists g :: g in gens && g.Live(now) && g.fp == fp
  }

  predicate DialsLive(gens: seq<Generation>, fp: string, now: int) {
    exists g :: g in gens && g.state.Active? && g.Live(now) && g.fp == fp
  }

  predicate NoRepeats(s: seq<string>) {
    forall i, j :: 0 <= i < j < |s| ==> s[i] != s[j]
  }

  /** Every fingerprint Sluice may still trust, without repeats, the one being
      dialled first; a pre-lineage entry has only its recorded fingerprint. */
  method LiveFingerprints(inst: Instance, now: int) returns (out: seq<string>)
    ensures NoRepeats(out)
    ensures inst.gens != [] ==> forall fp :: fp in out <==> fp != "" && NamesLive(inst.gens, fp, now)
    ensures inst.gens == [] ==> out == if inst.dialFp == "" then [] else [inst.dialFp]
    ensures forall fp :: fp != "" && DialsLive(inst.gens, fp, now) ==> out != [] && DialsLive(inst.gens, out[0], now)
  {
    out := [];
    for i := 0 to |inst.gens|
      invariant NoRepeats(out) && |out| <= i
      invariant forall fp :: fp in out <==> fp != "" && DialsLive(inst.gens[..i], fp, now)
    {
      var g := inst.gens[i];
      assert inst.gens[..i + 1] == inst.gens[..i] + [g];
      if g.state.Active? && g.Live(now) && g.fp != "" && g.fp !in out { out := out + [g.fp]; }
    }
    assert inst.gens[..|inst.gens|] == inst.gens;
    ghost var active := out;
    for i := 0 to |inst.gens|
      invariant NoRepeats(out) && |out| <= |active| + i
      invariant active <= out
      invariant forall fp :: fp in out <==> fp in active || (fp != "" && NamesLive(inst.gens[..i], fp, now))
    {
      var g := inst.gens[i];
      assert inst.gens[..i + 1] == inst.gens[..i] + [g];
      if g.Live(now) && g.fp != "" && g.fp !in out { out := out + [g.fp]; }
    }
    if |inst.gens| == 0 && inst.dialFp != "" { out := [inst.dialFp]; }
    if active != [] { assert active[0] in active && out[0] == active[0]; }
  }

  /** The registry itself.  `disk` is the content of cdr_instances.json. */
  class CDRInstanceRegistry {
    var instances: seq<Instance>
    var disk: seq<Instance>

    ghost function View(): Registry
      reads this
    {
      Registry(instances, disk)
    }

    constructor ()
      ensures View() == Registry([], [])
    {
      instances, disk := [], [];
    }

    method FindLocked(name: string) returns (idx: int)
      ensures idx == if Find(instances, name) == |instances| then -1 else Find(instances, name)
    {
      for i := 0 to |instances|
        invariant forall j :: 0 <= j < i ==> instances[j].name != name
      {
        if instances[i].name == name { return i; }
      }
      return -1;
    }

    method SaveLocked(w: Write) returns (ok: bool)
      modifies this`disk
      ensures ok <==> w.Written?
      ensures disk == if w.NotWritten? then old(disk) else instances
    {
      if !w.NotWritten? { disk := instances; }
      ok := w.Written?;
    }

    /** Installs the edited instance, saves, and rolls memory back on any error. */
    method Commit(idx: nat, next: Instance, w: Write) returns (ok: bool)
      requires idx < |instances|
      modifies this
      ensures View() == Saved(old(View()), old(instances)[idx := next], w)
      ensures ok <==> w.Written?
    {
      var prev := instances[idx];
      instances := instances[idx := next];
      ok := SaveLocked(w);
      if !ok { instances := instances[idx := prev]; }
    }

    method StageRenewal(name: string, op: string, now: int, certExpiry: int, w: Write)
      returns (s: int, out: Result<Instance>)
      modifies this
      ensures (View(), out) == Mutate(old(View()), name, StageOp(op, now, certExpiry), w)
      ensures out.Ok? ==> s == StagedSeq(Lookup(old(instances), name).value, now, certExpiry)
    {
      s := 0;
      var idx := FindLocked(name);
      if idx < 0 { out := Err(NotFound); return; }
      var inst := Normalize(instances[idx], certExpiry);
      for i := 0 to |inst.gens|
        invariant forall j :: 0 <= j < i ==> !inst.gens[j].Unresolved()
      {
        if inst.gens[i].Unresolved() { out := Err(RenewalInProgress); return; }
      }
      var gens := PruneLineage(inst.gens, now);
      if |gens| >= MAX_GENERATIONS { out := Err(LineageFull); return; }
      s := ComputeNextSeq(gens);
      inst := inst.(gens := gens + [Generation(s, "", 0, Renewing, op)]);
      var ok := Commit(idx, inst, w);
      out := if ok then Ok(inst) else Err(SaveFailed);
    }

    method RecordIssuedCredential(name: string, s: int, fp: string, notAfter: int, state: GenState, w: Write)
      returns (out: Result<Instance>)
      modifies this
      ensures (View(), out) == Mutate(old(View()), name, RecordOp(s, fp, notAfter, state), w)
    {
      var idx := FindLocked(name);
      if idx < 0 { return Err(NotFound); }
      var inst := instances[idx];
      for i := 0 to |inst.gens|
        invariant forall j :: 0 <= j < i ==> inst.gens[j].seqNo != s
        invariant View() == old(View())
      {
        if inst.gens[i].seqNo == s {
          if !inst.gens[i].state.Renewing? { return Err(GenerationState); }
          inst := inst.(gens := inst.gens[i := inst.gens[i].(state := state, fp := fp, notAfter := notAfter)]);
          var ok := Commit(idx, inst, w);
          return if ok then Ok(inst) else Err(SaveFailed);
        }
      }
      return Err(GenerationState);
    }

    method ActivateCredential(name: string, s: int, w: Write) returns (out: Result<Instance>)
      modifies this
      ensures (View(), out) == Mutate(old(View()), name, ActivateOp(s), w)
    {
      var idx := FindLocked(name);
      if idx < 0 { return Err(NotFound); }
      var inst := instances[idx];
      var target := -1;
      for i := 0 to |inst.gens|
        invariant target < i
        invariant target >= 0 ==> inst.gens[target].seqNo == s
        invariant -1 <= target && forall j :: target < j < i ==> inst.gens[j].seqNo != s
      {
        if inst.gens[i].seqNo == s { target := i; }
      }
      if target < 0 || !inst.gens[target].state.Staged? { return Err(GenerationState); }
      var gens := inst.gens;
      for i := 0 to |gens|
        invariant |gens| == |inst.gens|
        invariant forall j :: 0 <= j < |gens| ==> gens[j] == if j < i && j != target then Demoted(inst.gens[j]) else inst.gens[j]
      {
        if i != target && gens[i].state.Active? { gens := gens[i := gens[i].(state := Superseded)]; }
      }
      gens := gens[target := gens[target].(state := Active)];
      var next := Instance(inst.name, gens[target].fp, gens);
      assert next == Activate(inst, s).value;
      var ok := Commit(idx, next, w);
      return if ok then Ok(next) else Err(SaveFailed);
    }

    method DropUnissuedRenewal(name: string, s: int, w: Write) returns (out: Result<Instance>)
      modifies this
      ensures (View(), out) == Mutate(old(View()), name, DropOp(s), w)
    {
      var idx := FindLocked(name);
      if idx < 0 { return Err(NotFound); }
      var inst := instances[idx];
      for i := 0 to |inst.gens|
        invariant forall j :: 0 <= j < i ==> !(inst.gens[j].seqNo == s && inst.gens[j].state.Renewing?)
        invariant View() == old(View())
      {
        if inst.gens[i].seqNo == s && inst.gens[i].state.Renewing? {
          inst := inst.(gens := inst.gens[..i] + inst.gens[i + 1..]);
          var ok := Commit(idx, inst, w);
          return if ok then Ok(inst) else Err(SaveFailed);
        }
      }
      return Err(GenerationState);
    }

    method MarkCredentialRevoked(name: string, fp: string, certExpiry: int, w: Write) returns (out: Result<Instance>)
      modifies this
      ensures (View(), out) == Mutate(old(View()), name, MarkOp(fp, certExpiry), w)
    {
      var idx := FindLocked(name);
      if idx < 0 { return Err(NotFound); }
      var inst := Normalize(instances[idx], certExpiry);
      var i := 0;
      while i < |inst.gens| && inst.gens[i].fp != fp
        invariant i <= |inst.gens|
        invariant forall j :: 0 <= j < i ==> inst.gens[j].fp != fp
      {
        i := i + 1;
      }
      if i < |inst.gens| {
        inst := inst.(gens := inst.gens[i := inst.gens[i].(state := Revoked)]);
      } else {
        var s := ComputeNextSeq(inst.gens);
        inst := inst.(gens := inst.gens + [Generation(s, fp, 0, Revoked, "")]);
      }
      var ok := Commit(idx, inst, w);
      return if ok then Ok(inst) else Err(SaveFailed);
    }

    /** Enrolls a new instance with a normalised lineage; a blank name or
        endpoint and a taken name are refused. */
    method Add(inst: Instance, endpoint: string, certExpiry: int, w: Write) returns (ok: bool)
      modifies this
      ensures !Addable(old(instances), inst, endpoint) ==> !ok && View() == old(View())
      ensures Addable(old(instances), inst, endpoint) ==>
                && (ok <==> w.Written?)
                && View() == Saved(old(View()), old(instances) + [Normalize(inst, certExpiry)], w)
    {
      if Blank(inst.name) || Blank(endpoint) { return false; }
      var idx := FindLocked(inst.name);
      if idx >= 0 { return false; }
      var prev := instances;
      instances := instances + [Normalize(inst, certExpiry)];
      ok := SaveLocked(w);
      if !ok { instances := prev; }
    }

    method RemoveByName(name: string, w: Write) returns (removed: bool, failed: bool)
      modifies this
      ensures Lookup(old(instances), name).None? ==> !removed && !failed && View() == old(View())
      ensures Lookup(old(instances), name).Some? ==>
                && (removed <==> w.Written?) && (failed <==> !w.Written?)
                && View() == Saved(old(View()), Without(old(instances), name), w)
    {
      removed, failed := false, false;
      var found := FindLocked(name);
      if found < 0 { return; }
      var prev := instances;
      instances := prev[..found] + prev[found + 1..];
      removed := SaveLocked(w);
      failed := !removed;
      if failed { instances := prev; }
    }
  }
}
