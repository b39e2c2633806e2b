/** Enrollment with lost responses, failed saves and crashes (cdr_ui.go:392-680,
    cdr_enroll_receipts.go:434-451 and 563-702), as a transition system over the
    receipt store.

    `regMem` and `regDisk` are the fingerprints the instance registry holds in
    memory and on disk.  A fingerprint stops mattering once Sluice denies it, it
    expires, or a delete of the instance that holds it is acknowledged.
 */
module Enrollment {
  import opened Wrappers
  import opened EnrollReceipts

  /** What an operation is bound to for good. */
  datatype Binding = Binding(op: string, endpoint: string, pin: string)

  function Of(r: Receipt): Binding {
    Binding(r.op, r.endpoint, r.pin)
  }

  /** An enrollment request whose handler is still running. */
  datatype Phase =
    | Sent(k: Binding)                 // dispatched, nothing issued by this dispatch yet
    | IssuedNow(k: Binding, fp: string)
    | Landed(k: Binding, fp: string)   // in the registry, receipt not yet updated

  datatype World = World(
    issued: map<Binding, string>,  // what Sluice bound to each operation
    revoked: set<string>, expired: set<string>, released: set<string>,
    receipts: Store, regMem: set<string>, regDisk: set<string>,
    open: map<string, Phase>)
  {
    /** Nobody needs to remember this fingerprint any more. */
    predicate Settled(fp: string) {
      fp in revoked || fp in expired || fp in released
    }
  }

  datatype Event =
    | Begins(r: Receipt, w: Write)
    | SluiceIssues(op: string, fp: string)
    | ResponseLost(op: string)
    | DefinitelyRefused(op: string, now: int, w: Write)
    | AlreadyIssued(op: string, statusKnown: bool, now: int, w: Write)
    | Persists(op: string, w: Write, now: int, wReceipt: Write)
    | RecordsStored(op: string, now: int, w: Write)
    | Recovers(op: string, now: int, w: Write)
    | SluiceDenies(fp: string)
    | MarksRevoked(op: string, now: int, w: Write)
    | DeletesReceipt(op: string, w: Write)
    | DeletesInstance(fps: set<string>, w: Write)
    | Expires(fp: string)
    | RegistryForgets(fp: string, w: Write)
    | RegistrySaves
    | Crash

  // ─── Steps ────────────────────────────────────────────────────────────────

  function SetState(x: World, op: string, state: State, fp: string, now: int, w: Write): World {
    x.(receipts := Call(x.receipts, Update(op, state, fp, "", now), w))
  }

  function Close(x: World, op: string): World {
    x.(open := x.open - {op})
  }

  function StartsEnrollment(x: World, r: Receipt, w: Write): World {
    if r.op in x.open || !r.state.Dispatched? || r.fp != "" then x
    else
      var x' := x.(receipts := Call(x.receipts, Create(r), w));
      if Plan(x.receipts.mem, x.receipts.degraded, Create(r)).Ok? && w.Written? then
        x'.(open := x.open[r.op := Sent(Of(r))])
      else x'
  }

  /** Sluice issues at most once per operation, always a new certificate. */
  function Issues(x: World, op: string, fp: string): World {
    if Issuable(x, op, fp) then
      x.(issued := x.issued[x.open[op].k := fp], open := x.open[op := IssuedNow(x.open[op].k, fp)])
    else x
  }

  function Refuses(x: World, op: string, now: int, w: Write): World {
    if op in x.open && x.open[op].Sent? && x.open[op].k !in x.issued then
      Close(SetState(x, op, NotIssued, "", now, w), op)
    else x
  }

  function FindsAlreadyIssued(x: World, op: string, statusKnown: bool, now: int, w: Write): World {
    if op in x.open && x.open[op].Sent? && x.open[op].k in x.issued then
      Close(SetState(x, op, IssuedNotStored, if statusKnown then x.issued[x.open[op].k] else "", now, w), op)
    else x
  }

  /** PEMs and registry entry; on any failure the receipt says issued_not_stored. */
  function PersistsCredential(x: World, op: string, w: Write, now: int, wReceipt: Write): World {
    if op !in x.open || !x.open[op].IssuedNow? then x
    else
      var IssuedNow(k, fp) := x.open[op];
      match w
      case Written => x.(regMem := x.regMem + {fp}, regDisk := x.regMem + {fp}, open := x.open[op := Landed(k, fp)])
      case NotWritten => Close(SetState(x, op, IssuedNotStored, fp, now, wReceipt), op)
      case ReplacedNotSynced =>
        Close(SetState(x.(regDisk := x.regMem + {fp}), op, IssuedNotStored, fp, now, wReceipt), op)
  }

  function RecordsLanded(x: World, op: string, now: int, w: Write): World {
    if op in x.open && x.open[op].Landed? then Close(SetState(x, op, Stored, x.open[op].fp, now, w), op) else x
  }

  /** cdrRecoverClassify with Sluice's fresh answer, whatever else is going on. */
  function Recovery(x: World, op: string, now: int, w: Write): World {
    var i := IndexOf(x.receipts.mem, op);
    if i == |x.receipts.mem| then x
    else
      var r := x.receipts.mem[i];
      if Of(r) !in x.issued then
        if r.Terminal() then x else SetState(x, op, NotIssued, r.fp, now, w)
      else
        var fp := x.issued[Of(r)];
        if fp in x.regMem then
          if r.state.Dispatched? then SetState(x, op, Stored, fp, now, w) else x
        else if r.Terminal() then x
        else SetState(x, op, if fp in x.revoked then Revoked else IssuedNotStored, fp, now, w)
  }

  function RecordsDenial(x: World, op: string, now: int, w: Write): World {
    var i := IndexOf(x.receipts.mem, op);
    if i < |x.receipts.mem| && x.receipts.mem[i].fp in x.revoked && x.receipts.mem[i].fp != "" && op !in x.open then
      SetState(x, op, Revoked, x.receipts.mem[i].fp, now, w)
    else x
  }

  /** Only an acknowledged delete releases the fingerprints. */
  function Releases(x: World, fps: set<string>, w: Write): World {
    match w
    case Written => x.(regMem := x.regMem - fps, regDisk := x.regMem - fps, released := x.released + fps)
    case NotWritten => x
    case ReplacedNotSynced => x.(regDisk := x.regMem - fps)
  }

  /** Lineage pruning: only a denied or expired generation is dropped. */
  function Forgets(x: World, fp: string, w: Write): World {
    if fp !in x.revoked && fp !in x.expired then x
    else
      match w
      case Written => x.(regMem := x.regMem - {fp}, regDisk := x.regMem - {fp})
      case NotWritten => x
      case ReplacedNotSynced => x.(regDisk := x.regMem - {fp})
  }

  function Step(x: World, e: Event): World {
    match e
    case Begins(r, w) => StartsEnrollment(x, r, w)
    case SluiceIssues(op, fp) => Issues(x, op, fp)
    case ResponseLost(op) => if op in x.open && !x.open[op].Landed? then Close(x, op) else x
    case DefinitelyRefused(op, now, w) => Refuses(x, op, now, w)
    case AlreadyIssued(op, known, now, w) => FindsAlreadyIssued(x, op, known, now, w)
    case Persists(op, w, now, wReceipt) => PersistsCredential(x, op, w, now, wReceipt)
    case RecordsStored(op, now, w) => RecordsLanded(x, op, now, w)
    case Recovers(op, now, w) => if op in x.open then x else Recovery(x, op, now, w)
    case SluiceDenies(fp) => x.(revoked := x.revoked + {fp})
    case MarksRevoked(op, now, w) => RecordsDenial(x, op, now, w)
    case DeletesReceipt(op, w) => x.(receipts := Call(x.receipts, Delete(op), w))
    case DeletesInstance(fps, w) => Releases(x, fps, w)
    case Expires(fp) => x.(expired := x.expired + {fp})
    case RegistryForgets(fp, w) => Forgets(x, fp, w)
    case RegistrySaves => x.(regDisk := x.regMem)
    case Crash => x.(receipts := Restart(x.receipts), regMem := x.regDisk, open := map[])
  }

  function Trace(x: World, events: seq<Event>): World
    decreases |events|
  {
    if events == [] then x else Trace(Step(x, events[0]), events[1..])
  }

  // ─── The invariant ────────────────────────────────────────────────────────

  ghost predicate HasUnresolved(items: seq<Receipt>, k: Binding) {
    exists r :: r in items && Of(r) == k && r.Unresolved()
  }

  ghost predicate HasDispatched(items: seq<Receipt>, k: Binding) {
    exists r :: r in items && Of(r) == k && r.state.Dispatched? && r.fp == ""
  }

  /** The credential is held by the registry, or an unresolved receipt carries
      its operation id, endpoint and pin: in memory and after a restart alike. */
  ghost predicate Recoverable(x: World, k: Binding)
    requires k in x.issued
  {
    || (x.issued[k] in x.regMem && x.issued[k] in x.regDisk)
    || (HasUnresolved(x.receipts.mem, k) && HasUnresolved(x.receipts.disk, k))
  }

  ghost predicate NothingLost(x: World) {
    forall k :: k in x.issued && !x.Settled(x.issued[k]) ==> Recoverable(x, k)
  }

  /** A receipt's fingerprint, once known, is the issued one. */
  ghost predicate TrueFingerprints(items: seq<Receipt>, issued: map<Binding, string>) {
    forall r :: r in items && r.fp != "" ==> Of(r) in issued && issued[Of(r)] == r.fp
  }

  ghost predicate OpenHolds(x: World, op: string)
    requires op in x.open
  {
    var p := x.open[op];
    && p.k.op == op
    && HasDispatched(x.receipts.mem, p.k) && HasDispatched(x.receipts.disk, p.k)
    && (p.Sent? || (p.k in x.issued && x.issued[p.k] == p.fp))
    && (p.Landed? ==> (p.fp in x.regMem && p.fp in x.regDisk) || x.Settled(p.fp))
  }

  /** Held in memory only: a restart would not find it in the registry. */
  predicate Exposed(x: World, k: Binding) {
    k in x.issued && !x.Settled(x.issued[k]) && x.issued[k] in x.regMem && x.issued[k] !in x.regDisk
  }

  ghost predicate HasParked(items: seq<Receipt>, k: Binding) {
    exists r :: r in items && Of(r) == k && r.state.IssuedNotStored?
  }

  /** An exposed credential has a receipt that no recovery will close. */
  ghost predicate Parked(x: World) {
    forall k :: Exposed(x, k) ==> HasParked(x.receipts.mem, k)
  }

  ghost predicate Inv(x: World) {
    && Good(x.receipts)
    && NothingLost(x)
    && TrueFingerprints(x.receipts.mem, x.issued) && TrueFingerprints(x.receipts.disk, x.issued)
    && Parked(x)
    && (forall op :: op in x.open ==> OpenHolds(x, op))
  }

  ghost predicate Fresh(x: World) {
    x == World(map[], {}, {}, {}, Store([], [], false), {}, {}, map[])
  }

  // ─── Receipt calls, seen from here ────────────────────────────────────────

  /** A change of the list that leaves every receipt of other operations alone. */
  ghost predicate OthersKept(a: seq<Receipt>, op: string, b: seq<Receipt>) {
    && (forall r :: r in a && r.op != op ==> r in b)
    && (forall r :: r in b && r.op != op ==> r in a)
  }

  lemma UpdateKeepsOthers(items: seq<Receipt>, op: string, state: State, fp: string, now: int)
    requires Healthy(items) && Plan(items, false, Update(op, state, fp, "", now)).Ok?
    ensures OthersKept(items, op, Plan(items, false, Update(op, state, fp, "", now)).items)
    ensures forall r :: r in Plan(items, false, Update(op, state, fp, "", now)).items && r.op == op ==>
              r.state == state && r.fp == fp && exists r0 :: r0 in items && SameBinding(r0, r)
    ensures exists r :: r in Plan(items, false, Update(op, state, fp, "", now)).items && r.op == op
  {
    var next := Plan(items, false, Update(op, state, fp, "", now)).items;
    var i := LastIndexOf(items, op);
    assert items[i] in items && next[i] in next;
    forall r | r in items && r.op != op ensures r in next {
      var k :| 0 <= k < |items| && items[k] == r;
      assert next[k] == r;
    }
    forall r | r in next
      ensures r.op != op ==> r in items
      ensures r.op == op ==> r == next[i]
    {
      var k :| 0 <= k < |next| && next[k] == r;
      if k != i { assert items[k] == r && items[k] in items; }
    }
  }

  lemma CallKeepsGood(s: Store, q: Request, w: Write)
    requires Good(s)
    ensures Good(Call(s, q, w))
  {
    StepKeepsGood(s, Calls(q, w));
  }

  /** Moving one receipt to a new state loses nothing when the fingerprint
      written is the true one and a terminal state is backed by the registry. */
  ghost predicate Justified(x: World, op: string, state: State, fp: string) {
    forall r :: r in x.receipts.mem && r.op == op ==>
      && (fp != "" ==> Of(r) in x.issued && x.issued[Of(r)] == fp)
      && (Of(r) in x.issued && !x.Settled(x.issued[Of(r)]) ==>
            state.IssuedNotStored? || (x.issued[Of(r)] in x.regMem && x.issued[Of(r)] in x.regDisk))
  }

  lemma SetStateKeepsInv(x: World, op: string, state: State, fp: string, now: int, w: Write)
    requires Inv(x) && Justified(x, op, state, fp)
    ensures Inv(Close(SetState(x, op, state, fp, now, w), op))
  {
    var q := Update(op, state, fp, "", now);
    if Plan(x.receipts.mem, false, q).Ok? && !w.NotWritten? {
      CallKeepsGood(x.receipts, q, w);
      UpdateKeepsOthers(x.receipts.mem, op, state, fp, now);
      var next := Plan(x.receipts.mem, false, q).items;
      var y := Close(SetState(x, op, state, fp, now, w), op);
      UpdatedReceiptsKeepInv(x, op, state, fp, next, y);
    } else {
      assert SetState(x, op, state, fp, now, w) == x;
      CloseKeepsInv(x, op);
    }
  }

  /** What an update of `op` leaves of the other receipts and of its own. */
  ghost predicate Updated(items: seq<Receipt>, op: string, state: State, fp: string, next: seq<Receipt>) {
    && OthersKept(items, op, next)
    && (exists r :: r in next && r.op == op)
    && forall r :: r in next && r.op == op ==> r.state == state && r.fp == fp && exists r0 :: r0 in items && SameBinding(r0, r)
  }

  lemma UpdatedReceiptsKeepInv(x: World, op: string, state: State, fp: string, next: seq<Receipt>, y: World)
    requires Inv(x) && Justified(x, op, state, fp) && Updated(x.receipts.mem, op, state, fp, next)
    requires y == Close(x.(receipts := y.receipts), op) && Good(y.receipts)
    requires y.receipts.disk == next && (y.receipts.mem == next || y.receipts.mem == x.receipts.mem)
    ensures Inv(y)
  {
    forall k | k in y.issued && !y.Settled(y.issued[k]) ensures Recoverable(y, k) {
      assert Recoverable(x, k);
      if !(x.issued[k] in x.regMem && x.issued[k] in x.regDisk) { UpdatedStillUnresolved(x, op, state, fp, next, k); }
    }
    UpdatedFingerprints(x, op, state, fp, next);
    forall k | Exposed(y, k) ensures HasParked(y.receipts.mem, k) {
      assert Exposed(x, k);
      UpdatedStillParked(x, op, state, fp, next, k);
    }
    forall o | o in y.open ensures OpenHolds(y, o) {
      assert OpenHolds(x, o);
      DispatchedKept(x.receipts.mem, op, next, x.open[o].k);
    }
  }

  lemma UpdatedFingerprints(x: World, op: string, state: State, fp: string, next: seq<Receipt>)
    requires TrueFingerprints(x.receipts.mem, x.issued) && Justified(x, op, state, fp)
    requires Updated(x.receipts.mem, op, state, fp, next)
    ensures TrueFingerprints(next, x.issued)
  {
    forall r | r in next && r.fp != "" ensures Of(r) in x.issued && x.issued[Of(r)] == r.fp {
      if r.op == op {
        var r0 :| r0 in x.receipts.mem && SameBinding(r0, r);
        assert Of(r0) == Of(r);
      }
    }
  }

  lemma UpdatedStillUnresolved(x: World, op: string, state: State, fp: string, next: seq<Receipt>, k: Binding)
    requires Justified(x, op, state, fp) && DistinctOps(x.receipts.mem)
    requires k in x.issued && !x.Settled(x.issued[k]) && HasUnresolved(x.receipts.mem, k)
    requires !(x.issued[k] in x.regMem && x.issued[k] in x.regDisk)
    requires OthersKept(x.receipts.mem, op, next)
    requires exists r :: r in next && r.op == op
    requires forall r :: r in next && r.op == op ==> r.state == state && exists r0 :: r0 in x.receipts.mem && SameBinding(r0, r)
    ensures HasUnresolved(next, k)
  {
    var r :| r in x.receipts.mem && Of(r) == k && r.Unresolved();
    if r.op == op {
      var r' :| r' in next && r'.op == op;
      var r0 :| r0 in x.receipts.mem && SameBinding(r0, r');
      SameOpSameReceipt(x.receipts.mem, r, r0);
      assert Of(r') == k && r'.Unresolved();
    }
  }

  lemma UpdatedStillParked(x: World, op: string, state: State, fp: string, next: seq<Receipt>, k: Binding)
    requires Justified(x, op, state, fp) && DistinctOps(x.receipts.mem)
    requires Exposed(x, k) && HasParked(x.receipts.mem, k) && Updated(x.receipts.mem, op, state, fp, next)
    ensures HasParked(next, k)
  {
    var r :| r in x.receipts.mem && Of(r) == k && r.state.IssuedNotStored?;
    if r.op == op {
      var r' :| r' in next && r'.op == op;
      var r0 :| r0 in x.receipts.mem && SameBinding(r0, r');
      SameOpSameReceipt(x.receipts.mem, r, r0);
      assert Of(r') == k && r'.state.IssuedNotStored?;
    }
  }

  lemma DispatchedKept(a: seq<Receipt>, op: string, b: seq<Receipt>, k: Binding)
    requires HasDispatched(a, k) && OthersKept(a, op, b) && k.op != op
    ensures HasDispatched(b, k)
  {
    var r :| r in a && Of(r) == k && r.state.Dispatched? && r.fp == "";
  }

  lemma CloseKeepsInv(x: World, op: string)
    requires Inv(x)
    ensures Inv(Close(x, op))
  {
    var y := Close(x, op);
    forall k | k in y.issued && !y.Settled(y.issued[k]) ensures Recoverable(y, k) { assert Recoverable(x, k); }
    forall o | o in y.open ensures OpenHolds(y, o) { assert OpenHolds(x, o); }
  }

  /** The receipt of an open operation is its own and still dispatched. */
  lemma OpenReceipt(x: World, op: string, r: Receipt)
    requires Inv(x) && op in x.open && r in x.receipts.mem && r.op == op
    ensures Of(r) == x.open[op].k && r.state.Dispatched? && r.fp == ""
  {
    assert OpenHolds(x, op);
    var r' :| r' in x.receipts.mem && Of(r') == x.open[op].k && r'.state.Dispatched? && r'.fp == "";
    SameOpSameReceipt(x.receipts.mem, r, r');
  }

  // ─── Each event keeps the invariant ───────────────────────────────────────

  /** Requests that touch no unresolved receipt: create and delete. */
  lemma ReceiptEditKeepsInv(x: World, q: Request, w: Write)
    requires Inv(x) && (q.Create? || q.Delete?)
    requires q.Create? ==> q.r.fp == ""
    ensures Inv(x.(receipts := Call(x.receipts, q, w)))
  {
    var y := x.(receipts := Call(x.receipts, q, w));
    CallKeepsGood(x.receipts, q, w);
    if Plan(x.receipts.mem, false, q).Ok? && !w.NotWritten? {
      var next := Plan(x.receipts.mem, false, q).items;
      EditKeepsUnresolved(x.receipts.mem, q);
      forall k | k in y.issued && !y.Settled(y.issued[k]) ensures Recoverable(y, k) {
        assert Recoverable(x, k);
        if HasUnresolved(x.receipts.mem, k) {
          var r :| r in x.receipts.mem && Of(r) == k && r.Unresolved();
          assert r in next;
        }
      }
      forall o | o in y.open ensures OpenHolds(y, o) {
        assert OpenHolds(x, o);
        var r :| r in x.receipts.mem && Of(r) == x.open[o].k && r.state.Dispatched? && r.fp == "";
        assert r in next;
      }
      forall k | Exposed(y, k) ensures HasParked(y.receipts.mem, k) {
        assert Exposed(x, k);
        var r :| r in x.receipts.mem && Of(r) == k && r.state.IssuedNotStored?;
        assert r in next;
      }
    } else {
      assert y == x;
    }
  }

  lemma EditKeepsUnresolved(items: seq<Receipt>, q: Request)
    requires Healthy(items) && (q.Create? || q.Delete?) && Plan(items, false, q).Ok?
    ensures forall r :: r in items && r.Unresolved() ==> r in Plan(items, false, q).items
    ensures forall r :: r in Plan(items, false, q).items ==> r in items || (q.Create? && r == q.r)
    ensures q.Create? && q.r.Unresolved() ==> q.r in Plan(items, false, q).items
  {
    if q.Create? {
      EvictionIsHarmless(items + [q.r], q.r.op);
    } else {
      var i := IndexOf(items, q.op);
      assert items == items[..i] + [items[i]] + items[i + 1..];
    }
  }

  lemma StartsKeepsInv(x: World, r: Receipt, w: Write)
    requires Inv(x)
    ensures Inv(Step(x, Begins(r, w)))
  {
    if r.op !in x.open && r.state.Dispatched? && r.fp == "" {
      ReceiptEditKeepsInv(x, Create(r), w);
      if Plan(x.receipts.mem, x.receipts.degraded, Create(r)).Ok? && w.Written? {
        var y := StartsEnrollment(x, r, w);
        var z := x.(receipts := Call(x.receipts, Create(r), w));
        EditKeepsUnresolved(x.receipts.mem, Create(r));
        assert HasDispatched(y.receipts.mem, Of(r));
        forall k | k in y.issued && !y.Settled(y.issued[k]) ensures Recoverable(y, k) { assert Recoverable(z, k); }
        forall o | o in y.open ensures OpenHolds(y, o) { if o != r.op { assert OpenHolds(z, o); } }
      }
    }
  }

  lemma IssuesKeepsInv(x: World, op: string, fp: string)
    requires Inv(x)
    ensures Inv(Step(x, SluiceIssues(op, fp)))
  {
    if Issuable(x, op, fp) {
      var y := Issues(x, op, fp);
      assert OpenHolds(x, op);
      forall k | k in y.issued && !y.Settled(y.issued[k]) ensures Recoverable(y, k) {
        if k != x.open[op].k { assert Recoverable(x, k); }
        IssuedIsRecoverable(x, op, fp, k);
      }
      forall o | o in y.open ensures OpenHolds(y, o) {
        assert OpenHolds(x, o);
        IssuedStaysOpen(x, op, fp, o);
      }
      IssuedFitsReceipts(x, op, fp);
    }
  }

  lemma IssuedFitsReceipts(x: World, op: string, fp: string)
    requires Inv(x) && Issuable(x, op, fp)
    ensures var y := Issues(x, op, fp); TrueFingerprints(x.receipts.mem, y.issued) && TrueFingerprints(x.receipts.disk, y.issued) && Parked(y)
  {
  }

  predicate Issuable(x: World, op: string, fp: string) {
    op in x.open && x.open[op].Sent? && x.open[op].k !in x.issued && fp != "" && fp !in x.issued.Values && !x.Settled(fp) &&
    fp !in x.regMem && fp !in x.regDisk
  }

  lemma IssuedIsRecoverable(x: World, op: string, fp: string, k: Binding)
    requires Issuable(x, op, fp) && OpenHolds(x, op)
    requires k == x.open[op].k || (k in x.issued && Recoverable(x, k))
    ensures k in Issues(x, op, fp).issued && Recoverable(Issues(x, op, fp), k)
  {
  }

  lemma IssuedStaysOpen(x: World, op: string, fp: string, o: string)
    requires Issuable(x, op, fp) && o in x.open && OpenHolds(x, o)
    ensures OpenHolds(Issues(x, op, fp), o)
  {
  }

  /** All receipts of an open operation carry the binding it was dispatched with. */
  lemma OpenReceipts(x: World, op: string)
    requires Inv(x) && op in x.open
    ensures forall r :: r in x.receipts.mem && r.op == op ==> Of(r) == x.open[op].k
  {
    forall r | r in x.receipts.mem && r.op == op ensures Of(r) == x.open[op].k { OpenReceipt(x, op, r); }
  }

  lemma RefusesKeepsInv(x: World, op: string, now: int, w: Write)
    requires Inv(x)
    ensures Inv(Step(x, DefinitelyRefused(op, now, w)))
  {
    if op in x.open && x.open[op].Sent? && x.open[op].k !in x.issued {
      RefusalIsJustified(x, op);
      SetStateKeepsInv(x, op, NotIssued, "", now, w);
      assert Step(x, DefinitelyRefused(op, now, w)) == Close(SetState(x, op, NotIssued, "", now, w), op);
    } else {
      assert Step(x, DefinitelyRefused(op, now, w)) == x;
    }
  }

  lemma RefusalIsJustified(x: World, op: string)
    requires Inv(x) && op in x.open && x.open[op].k !in x.issued
    ensures Justified(x, op, NotIssued, "")
  {
    OpenReceipts(x, op);
  }

  lemma AlreadyIssuedKeepsInv(x: World, op: string, known: bool, now: int, w: Write)
    requires Inv(x)
    ensures Inv(Step(x, AlreadyIssued(op, known, now, w)))
  {
    if op in x.open && x.open[op].Sent? && x.open[op].k in x.issued {
      OpenReceipts(x, op);
      SetStateKeepsInv(x, op, IssuedNotStored, if known then x.issued[x.open[op].k] else "", now, w);
    }
  }

  lemma LandedKeepsInv(x: World, op: string, now: int, w: Write)
    requires Inv(x)
    ensures Inv(Step(x, RecordsStored(op, now, w)))
  {
    if op in x.open && x.open[op].Landed? {
      OpenReceipts(x, op);
      assert OpenHolds(x, op);
      SetStateKeepsInv(x, op, Stored, x.open[op].fp, now, w);
    }
  }

  lemma PersistsKeepsInv(x: World, op: string, w: Write, now: int, wReceipt: Write)
    requires Inv(x)
    ensures Inv(Step(x, Persists(op, w, now, wReceipt)))
  {
    if op in x.open && x.open[op].IssuedNow? {
      assert OpenHolds(x, op);
      OpenReceipts(x, op);
      var fp := x.open[op].fp;
      match w {
        case Written => LandsKeepsInv(x, op);
        case NotWritten => SetStateKeepsInv(x, op, IssuedNotStored, fp, now, wReceipt);
        case ReplacedNotSynced =>
          DiskTakesMemory(x, fp);
          SetStateKeepsInv(x.(regDisk := x.regMem + {fp}), op, IssuedNotStored, fp, now, wReceipt);
      }
    }
  }

  lemma LandsKeepsInv(x: World, op: string)
    requires Inv(x) && op in x.open && x.open[op].IssuedNow?
    ensures var IssuedNow(k, fp) := x.open[op];
      Inv(x.(regMem := x.regMem + {fp}, regDisk := x.regMem + {fp}, open := x.open[op := Landed(k, fp)]))
  {
    assert OpenHolds(x, op);
    var IssuedNow(k, fp) := x.open[op];
    MoreHeldKeepsInv(x, fp);
    var z := x.(regMem := x.regMem + {fp}, regDisk := x.regMem + {fp});
    var y := z.(open := x.open[op := Landed(k, fp)]);
    forall j | j in y.issued && !y.Settled(y.issued[j]) ensures Recoverable(y, j) { assert Recoverable(z, j); }
    forall o | o in y.open ensures OpenHolds(y, o) { assert OpenHolds(z, o); }
  }

  lemma MoreHeldKeepsInv(x: World, fp: string)
    requires Inv(x)
    ensures Inv(x.(regMem := x.regMem + {fp}, regDisk := x.regMem + {fp}))
  {
    var y := x.(regMem := x.regMem + {fp}, regDisk := x.regMem + {fp});
    forall k | k in y.issued && !y.Settled(y.issued[k]) ensures Recoverable(y, k) { assert Recoverable(x, k); }
    forall o | o in y.open ensures OpenHolds(y, o) { assert OpenHolds(x, o); }
  }

  /** The registry file taking memory's content, plus one extra entry. */
  lemma DiskTakesMemory(x: World, fp: string)
    requires Inv(x)
    ensures Inv(x.(regDisk := x.regMem + {fp}))
    ensures Inv(x.(regDisk := x.regMem))
  {
    var y, z := x.(regDisk := x.regMem + {fp}), x.(regDisk := x.regMem);
    forall k | k in x.issued && !x.Settled(x.issued[k]) ensures Recoverable(y, k) && Recoverable(z, k) { assert Recoverable(x, k); }
    forall o | o in x.open ensures OpenHolds(y, o) && OpenHolds(z, o) { assert OpenHolds(x, o); }
  }

  lemma RecoveryKeepsInv(x: World, op: string, now: int, w: Write)
    requires Inv(x) && op !in x.open
    ensures Inv(Recovery(x, op, now, w)) && Inv(Step(x, Recovers(op, now, w)))
  {
    var i := IndexOf(x.receipts.mem, op);
    if i < |x.receipts.mem| {
      var r := x.receipts.mem[i];
      assert r in x.receipts.mem;
      forall r' | r' in x.receipts.mem && r'.op == op ensures r' == r { SameOpSameReceipt(x.receipts.mem, r, r'); }
      assert x.open - {op} == x.open;
      if Of(r) !in x.issued {
        SetStateKeepsInv(x, op, NotIssued, r.fp, now, w);
      } else {
        var fp := x.issued[Of(r)];
        if fp in x.regMem {
          if r.state.Dispatched? {
            assert !HasParked(x.receipts.mem, Of(r));
            SetStateKeepsInv(x, op, Stored, fp, now, w);
          }
        } else {
          SetStateKeepsInv(x, op, if fp in x.revoked then Revoked else IssuedNotStored, fp, now, w);
        }
      }
    }
  }

  lemma DenialKeepsInv(x: World, op: string, now: int, w: Write)
    requires Inv(x)
    ensures Inv(Step(x, MarksRevoked(op, now, w)))
  {
    var i := IndexOf(x.receipts.mem, op);
    if i < |x.receipts.mem| && x.receipts.mem[i].fp in x.revoked && x.receipts.mem[i].fp != "" && op !in x.open {
      var r := x.receipts.mem[i];
      assert r in x.receipts.mem;
      forall r' | r' in x.receipts.mem && r'.op == op ensures r' == r { SameOpSameReceipt(x.receipts.mem, r, r'); }
      assert x.open - {op} == x.open;
      SetStateKeepsInv(x, op, Revoked, r.fp, now, w);
    }
  }

  /** Registry losses are confined to settled fingerprints. */
  lemma SettledLossKeepsInv(x: World, y: World)
    requires Inv(x)
    requires y.issued == x.issued && y.receipts == x.receipts && y.open == x.open
    requires forall fp :: x.Settled(fp) ==> y.Settled(fp)
    requires forall fp :: fp in x.regMem && fp !in y.regMem ==> y.Settled(fp)
    requires forall fp :: fp in x.regMem && fp in x.regDisk && fp !in y.regDisk ==> y.Settled(fp)
    requires forall fp :: fp in y.regMem && fp !in y.regDisk ==> y.Settled(fp) || (fp in x.regMem && fp !in x.regDisk)
    ensures Inv(y)
  {
    forall k | k in y.issued && !y.Settled(y.issued[k]) ensures Recoverable(y, k) { assert Recoverable(x, k); }
    forall o | o in y.open ensures OpenHolds(y, o) { assert OpenHolds(x, o); }
    forall k | Exposed(y, k) ensures HasParked(y.receipts.mem, k) { assert Exposed(x, k); }
  }

  lemma CrashKeepsInv(x: World)
    requires Inv(x)
    ensures Inv(Step(x, Crash))
  {
    var y := Step(x, Crash);
    SelfKeeps(x.receipts.disk);
    forall k | k in y.issued && !y.Settled(y.issued[k]) ensures Recoverable(y, k) { assert Recoverable(x, k); }
  }

  lemma DenialAndExpiryKeepInv(x: World, fp: string)
    requires Inv(x)
    ensures Inv(Step(x, SluiceDenies(fp))) && Inv(Step(x, Expires(fp)))
  {
    SettledLossKeepsInv(x, x.(revoked := x.revoked + {fp}));
    SettledLossKeepsInv(x, x.(expired := x.expired + {fp}));
  }

  lemma ReleasesKeepsInv(x: World, fps: set<string>, w: Write)
    requires Inv(x) && !w.ReplacedNotSynced?
    ensures Inv(Step(x, DeletesInstance(fps, w)))
  {
    SettledLossKeepsInv(x, Releases(x, fps, w));
  }

  lemma ForgetsKeepsInv(x: World, fp: string, w: Write)
    requires Inv(x)
    ensures Inv(Step(x, RegistryForgets(fp, w)))
  {
    SettledLossKeepsInv(x, Forgets(x, fp, w));
  }

  /** A delete of `fps` that is answered with an error after the file was
      replaced leaves them exposed; these can bear it. */
  ghost predicate Bears(x: World, fps: set<string>) {
    forall k :: k in x.issued && !x.Settled(x.issued[k]) && x.issued[k] in fps && x.issued[k] in x.regMem ==>
      HasParked(x.receipts.mem, k) && HasUnresolved(x.receipts.disk, k)
  }

  lemma BorneDeleteKeepsInv(x: World, fps: set<string>)
    requires Inv(x) && Bears(x, fps)
    ensures Inv(Step(x, DeletesInstance(fps, ReplacedNotSynced)))
  {
    var y := Releases(x, fps, ReplacedNotSynced);
    forall k | k in y.issued && !y.Settled(y.issued[k]) ensures Recoverable(y, k) { assert Recoverable(x, k); }
    forall o | o in y.open ensures OpenHolds(y, o) {
      assert OpenHolds(x, o);
      if x.open[o].Landed? && x.open[o].fp in fps && x.open[o].fp in x.regMem && !x.Settled(x.open[o].fp) {
        ParkedIsNotOpen(x, o);
      }
    }
    forall k | Exposed(y, k) ensures HasParked(y.receipts.mem, k) { assert k in x.issued; }
  }

  lemma ParkedIsNotOpen(x: World, op: string)
    requires Inv(x) && op in x.open
    ensures !HasParked(x.receipts.mem, x.open[op].k)
  {
    forall r | r in x.receipts.mem && Of(r) == x.open[op].k ensures !r.state.IssuedNotStored? {
      assert OpenHolds(x, op);
      OpenReceipt(x, op, r);
    }
  }

  /** The event is no such delete, or one the state bears. */
  ghost predicate Borne(x: World, e: Event) {
    e.DeletesInstance? && e.w.ReplacedNotSynced? ==> Bears(x, e.fps)
  }

  lemma StepKeepsInv(x: World, e: Event)
    requires Inv(x) && Borne(x, e)
    ensures Inv(Step(x, e))
  {
    match e
    case Begins(r, w) => StartsKeepsInv(x, r, w);
    case SluiceIssues(op, fp) => IssuesKeepsInv(x, op, fp);
    case ResponseLost(op) => CloseKeepsInv(x, op);
    case DefinitelyRefused(op, now, w) => RefusesKeepsInv(x, op, now, w);
    case AlreadyIssued(op, known, now, w) => AlreadyIssuedKeepsInv(x, op, known, now, w);
    case Persists(op, w, now, wReceipt) => PersistsKeepsInv(x, op, w, now, wReceipt);
    case RecordsStored(op, now, w) => LandedKeepsInv(x, op, now, w);
    case Recovers(op, now, w) => if op !in x.open { RecoveryKeepsInv(x, op, now, w); }
    case _ => OperatorStepKeepsInv(x, e);
  }

  lemma OperatorStepKeepsInv(x: World, e: Event)
    requires Inv(x) && Borne(x, e)
    requires !(e.Begins? || e.SluiceIssues? || e.ResponseLost? || e.DefinitelyRefused? || e.AlreadyIssued? || e.Persists? || e.RecordsStored? || e.Recovers?)
    ensures Inv(Step(x, e))
  {
    match e
    case SluiceDenies(fp) => DenialAndExpiryKeepInv(x, fp);
    case MarksRevoked(op, now, w) => DenialKeepsInv(x, op, now, w);
    case DeletesReceipt(op, w) => ReceiptEditKeepsInv(x, Delete(op), w);
    case DeletesInstance(fps, w) => if w.ReplacedNotSynced? { BorneDeleteKeepsInv(x, fps); } else { ReleasesKeepsInv(x, fps, w); }
    case Expires(fp) => DenialAndExpiryKeepInv(x, fp);
    case RegistryForgets(fp, w) => ForgetsKeepsInv(x, fp, w);
    case RegistrySaves => DiskTakesMemory(x, "");
    case Crash => CrashKeepsInv(x);
  }

  // ─── Main results ─────────────────────────────────────────────────────────

  /** Every half-reported delete of the run is one its state bears. */
  ghost predicate AllBorne(x: World, events: seq<Event>)
    decreases |events|
  {
    events == [] || (Borne(x, events[0]) && AllBorne(Step(x, events[0]), events[1..]))
  }

  lemma {:induction false} InvAlways(x: World, events: seq<Event>)
    requires Inv(x) && AllBorne(x, events)
    ensures Inv(Trace(x, events))
    decreases |events|
  {
    if events != [] {
      StepKeepsInv(x, events[0]);
      InvAlways(Step(x, events[0]), events[1..]);
    }
  }

  /** Enrollment is always recoverable: from an empty appliance on, over any run
      of enrollments, lost answers, failing saves, recoveries and crashes whose
      half-reported deletes are borne, every credential Sluice issued that is not
      denied, expired or deleted with acknowledgement is in the registry or behind
      an unresolved receipt with its binding. */
  lemma EnrollmentIsRecoverable(x: World, events: seq<Event>)
    requires Fresh(x) && AllBorne(x, events)
    ensures NothingLost(Trace(x, events)) && Good(Trace(x, events).receipts)
  {
    InvAlways(x, events);
  }

  ghost predicate KeepsAll(x: World, events: seq<Event>) {
    AllBorne(x, events) ==> NothingLost(Trace(x, events))
  }

  /** A delete answered with an error after it replaced the file loses nothing, in
      every continuation whose own such deletes are borne, if and only if each
      live credential it names has an issued-not-stored receipt in memory and an
      unresolved one in the file. */
  lemma HalfDeleteIsSafeIff(x: World, fps: set<string>)
    requires Inv(x)
    ensures (forall events: seq<Event> :: KeepsAll(Step(x, DeletesInstance(fps, ReplacedNotSynced)), events)) <==> Bears(x, fps)
  {
    var y := Step(x, DeletesInstance(fps, ReplacedNotSynced));
    if Bears(x, fps) {
      BorneDeleteKeepsInv(x, fps);
      forall events: seq<Event> ensures KeepsAll(y, events) { if AllBorne(y, events) { InvAlways(y, events); } }
    } else {
      var k :| k in x.issued && !x.Settled(x.issued[k]) && x.issued[k] in fps && x.issued[k] in x.regMem &&
               !(HasParked(x.receipts.mem, k) && HasUnresolved(x.receipts.disk, k));
      if HasUnresolved(x.receipts.mem, k) && HasUnresolved(x.receipts.disk, k) {
        RecoveryLosesExposed(x, fps, k);
      } else {
        assert !Recoverable(y, k);
        assert Trace(y, []) == y && !KeepsAll(y, []);
      }
    }
  }

  /** Closing the receipt of an exposed credential: whatever its handler is doing,
      and then a recovery that finds it in memory's registry. */
  function Closing(op: string): seq<Event> {
    [ResponseLost(op), RecordsStored(op, 0, Written), Recovers(op, 0, Written)]
  }

  lemma RecoveryLosesExposed(x: World, fps: set<string>, k: Binding)
    requires Inv(x) && k in x.issued && !x.Settled(x.issued[k]) && x.issued[k] in fps && x.issued[k] in x.regMem
    requires HasUnresolved(x.receipts.mem, k) && !HasParked(x.receipts.mem, k)
    ensures !KeepsAll(Step(x, DeletesInstance(fps, ReplacedNotSynced)), Closing(k.op))
  {
    var y := Step(x, DeletesInstance(fps, ReplacedNotSynced));
    var r :| r in x.receipts.mem && Of(r) == k && r.Unresolved();
    forall r' | r' in x.receipts.mem && r'.op == k.op ensures r' == r { SameOpSameReceipt(x.receipts.mem, r, r'); }
    if k.op in x.open { OpenReceipt(x, k.op, r); }
    var y1 := Step(y, ResponseLost(k.op));
    if k.op in y1.open { LandedIsClosed(y1, k, r); } else { RecoverStores(y1, k, r); }
    assert !Recoverable(Step(Step(y1, RecordsStored(k.op, 0, Written)), Recovers(k.op, 0, Written)), k);
    TraceOfThree(y, Closing(k.op));
  }

  /** The receipt of `k` is the only one of its operation. */
  predicate OnlyReceipt(y: World, k: Binding, r: Receipt) {
    r in y.receipts.mem && Of(r) == k && forall r' :: r' in y.receipts.mem && r'.op == k.op ==> r' == r
  }

  /** What is left of it once it is stored. */
  ghost predicate AllStored(items: seq<Receipt>, k: Binding) {
    forall r :: r in items && r.op == k.op ==> r.state.Stored? && Of(r) == k
  }

  lemma StoresReceipt(y: World, fp: string, k: Binding, r: Receipt)
    requires Healthy(y.receipts.mem) && !y.receipts.degraded && OnlyReceipt(y, k, r)
    ensures var z := SetState(y, k.op, Stored, fp, 0, Written);
      z == y.(receipts := z.receipts) && AllStored(z.receipts.mem, k)
  {
    UpdateKeepsOthers(y.receipts.mem, k.op, Stored, fp, 0);
    var z := SetState(y, k.op, Stored, fp, 0, Written);
    forall a | a in z.receipts.mem && a.op == k.op ensures a.state.Stored? && Of(a) == k {
      var r0 :| r0 in y.receipts.mem && SameBinding(r0, a);
      assert r0 == r;
    }
  }

  ghost predicate ClosedButHeld(y: World, z: World, k: Binding) {
    && z.issued == y.issued && z.regMem == y.regMem && z.regDisk == y.regDisk
    && z.revoked == y.revoked && z.expired == y.expired && z.released == y.released
    && AllStored(z.receipts.mem, k)
  }

  lemma RecoverStores(y: World, k: Binding, r: Receipt)
    requires Healthy(y.receipts.mem) && !y.receipts.degraded && k.op !in y.open && OnlyReceipt(y, k, r)
    requires k in y.issued && y.issued[k] in y.regMem && r.state.Dispatched?
    ensures Step(y, RecordsStored(k.op, 0, Written)) == y
    ensures ClosedButHeld(y, Step(y, Recovers(k.op, 0, Written)), k)
  {
    var i := IndexOf(y.receipts.mem, k.op);
    assert y.receipts.mem[i] in y.receipts.mem;
    StoresReceipt(y, y.issued[k], k, r);
    assert Step(y, Recovers(k.op, 0, Written)) == SetState(y, k.op, Stored, y.issued[k], 0, Written);
  }

  lemma LandedIsClosed(y: World, k: Binding, r: Receipt)
    requires Healthy(y.receipts.mem) && !y.receipts.degraded && k.op in y.open && y.open[k.op].Landed? && OnlyReceipt(y, k, r)
    requires k in y.issued && y.issued[k] in y.regMem
    ensures ClosedButHeld(y, Step(Step(y, RecordsStored(k.op, 0, Written)), Recovers(k.op, 0, Written)), k)
  {
    StoresReceipt(y, y.open[k.op].fp, k, r);
    var z := Step(y, RecordsStored(k.op, 0, Written));
    assert z == Close(SetState(y, k.op, Stored, y.open[k.op].fp, 0, Written), k.op);
    RecoverIsIdle(z, k);
  }

  /** Recovery leaves a stored receipt of an issued operation alone. */
  lemma RecoverIsIdle(y: World, k: Binding)
    requires k in y.issued && y.issued[k] in y.regMem && k.op !in y.open && AllStored(y.receipts.mem, k)
    ensures Step(y, Recovers(k.op, 0, Written)) == y
  {
    var i := IndexOf(y.receipts.mem, k.op);
    if i < |y.receipts.mem| { assert y.receipts.mem[i] in y.receipts.mem; }
  }

  lemma TraceOfThree(x: World, events: seq<Event>)
    requires |events| == 3 && AllUnrelatedToDelete(events)
    ensures Trace(x, events) == Step(Step(Step(x, events[0]), events[1]), events[2]) && AllBorne(x, events)
  {
    var x1, rest := Step(x, events[0]), events[1..];
    TraceOfTwo(x1, rest);
    assert rest[0] == events[1] && rest[1] == events[2];
    NoDeleteIsBorne(x, events);
  }

  predicate AllUnrelatedToDelete(events: seq<Event>) {
    forall i :: 0 <= i < |events| ==> !events[i].DeletesInstance?
  }

  lemma {:induction false} NoDeleteIsBorne(x: World, events: seq<Event>)
    requires AllUnrelatedToDelete(events)
    ensures AllBorne(x, events)
    decreases |events|
  {
    if events != [] { NoDeleteIsBorne(Step(x, events[0]), events[1..]); }
  }

  /** The plain case: a stored credential whose delete failed that way is, after a
      restart, in neither the registry nor the receipts, and was never released. */
  lemma HalfDeleteForgets(x: World, k: Binding)
    requires Inv(x) && k in x.issued && !x.Settled(x.issued[k]) && !HasUnresolved(x.receipts.disk, k)
    ensures
      var y := Step(Step(x, DeletesInstance({x.issued[k]}, ReplacedNotSynced)), Crash);
      y.issued[k] !in y.regMem && !HasUnresolved(y.receipts.mem, k) && !y.Settled(y.issued[k]) && !NothingLost(y)
  {
    var y := Step(Step(x, DeletesInstance({x.issued[k]}, ReplacedNotSynced)), Crash);
    assert !Recoverable(y, k);
  }

  /** Recovering an operation Sluice has not answered for yet is safe, whatever
      comes next that bears its failed deletes, if and only if its own dispatch is
      no longer open. */
  lemma RecoveryIsSafeIffClosed(x: World, op: string, now: int)
    requires Inv(x)
    requires exists r :: r in x.receipts.mem && r.op == op && r.Unresolved() && Of(r) !in x.issued
    ensures (forall events :: KeepsAll(Recovery(x, op, now, Written), events)) <==> op !in x.open
  {
    if op !in x.open {
      RecoveryKeepsInv(x, op, now, Written);
      var y := Recovery(x, op, now, Written);
      forall events ensures KeepsAll(y, events) { if AllBorne(y, events) { InvAlways(y, events); } }
    } else {
      OpenIsSent(x, op);
      var events := OpenRecoveryLoses(x, op, now);
    }
  }

  lemma OpenRecoveryLoses(x: World, op: string, now: int) returns (events: seq<Event>)
    requires Inv(x) && op in x.open && x.open[op].Sent? && x.open[op].k !in x.issued && x.open[op].k.op == op
    ensures !KeepsAll(Recovery(x, op, now, Written), events)
  {
    var y := Recovery(x, op, now, Written);
    var fp := Unseen(x);
    events := [SluiceIssues(op, fp), ResponseLost(op)];
    EarlyRecoveryWritesOff(x, op, now);
    LateIssueRunLoses(y, op, fp);
  }

  lemma LateIssueRunLoses(y: World, op: string, fp: string)
    requires op in y.open && y.open[op].Sent? && y.open[op].k !in y.issued && y.open[op].k.op == op
    requires forall r :: r in y.receipts.mem && r.op == op ==> r.state.NotIssued?
    requires fp != "" && fp !in y.issued.Values && !y.Settled(fp) && fp !in y.regMem && fp !in y.regDisk
    ensures !KeepsAll(y, [SluiceIssues(op, fp), ResponseLost(op)])
  {
    var events := [SluiceIssues(op, fp), ResponseLost(op)];
    LateIssueIsLost(y, op, fp);
    TraceOfTwo(y, events);
    NoDeleteIsBorne(y, events);
  }

  lemma OpenIsSent(x: World, op: string)
    requires Inv(x) && op in x.open
    requires exists r :: r in x.receipts.mem && r.op == op && Of(r) !in x.issued
    ensures x.open[op].Sent? && x.open[op].k !in x.issued && x.open[op].k.op == op
  {
    var r :| r in x.receipts.mem && r.op == op && Of(r) !in x.issued;
    OpenReceipt(x, op, r);
    assert OpenHolds(x, op);
  }

  lemma TraceOfTwo(x: World, events: seq<Event>)
    requires |events| == 2
    ensures Trace(x, events) == Step(Step(x, events[0]), events[1])
  {
    var x1, rest := Step(x, events[0]), events[1..];
    assert rest == [events[1]] && rest[1..] == [];
    assert Trace(x1, rest) == Trace(Step(x1, rest[0]), rest[1..]);
  }

  /** Recovering an open, unissued operation writes its receipt off. */
  lemma EarlyRecoveryWritesOff(x: World, op: string, now: int)
    requires Inv(x) && op in x.open && x.open[op].k !in x.issued
    ensures
      var y := Recovery(x, op, now, Written);
      && y == x.(receipts := y.receipts)
      && forall r :: r in y.receipts.mem && r.op == op ==> r.state.NotIssued?
  {
    RecoveryRefuses(x, op, now);
    UpdateKeepsOthers(x.receipts.mem, op, NotIssued, "", now);
  }

  lemma RecoveryRefuses(x: World, op: string, now: int)
    requires Inv(x) && op in x.open && x.open[op].k !in x.issued
    ensures Recovery(x, op, now, Written) == SetState(x, op, NotIssued, "", now, Written)
    ensures Plan(x.receipts.mem, false, Update(op, NotIssued, "", "", now)).Ok?
  {
    assert OpenHolds(x, op);
    var i := IndexOf(x.receipts.mem, op);
    var r := x.receipts.mem[i];
    assert r in x.receipts.mem;
    OpenReceipt(x, op, r);
  }

  lemma LateIssueIsLost(y: World, op: string, fp: string)
    requires op in y.open && y.open[op].Sent? && y.open[op].k !in y.issued && y.open[op].k.op == op
    requires forall r :: r in y.receipts.mem && r.op == op ==> r.state.NotIssued?
    requires fp != "" && fp !in y.issued.Values && !y.Settled(fp) && fp !in y.regMem && fp !in y.regDisk
    ensures !NothingLost(Step(Step(y, SluiceIssues(op, fp)), ResponseLost(op)))
  {
    var k := y.open[op].k;
    var z := Step(Step(y, SluiceIssues(op, fp)), ResponseLost(op));
    assert z.issued[k] == fp && z.receipts == y.receipts && z.regMem == y.regMem;
    assert !Recoverable(z, k);
  }

  /** A fingerprint nobody has mentioned: longer than every known one. */
  lemma Unseen(x: World) returns (fp: string)
    ensures fp != "" && fp !in x.issued.Values && !x.Settled(fp) && fp !in x.regMem && fp !in x.regDisk
  {
    fp := LongerThan(x.issued.Values + x.revoked + x.expired + x.released + x.regMem + x.regDisk);
  }

  lemma {:induction false} LongerThan(used: set<string>) returns (fp: string)
    ensures fp != "" && forall u :: u in used ==> |u| < |fp|
    decreases used
  {
    if used == {} {
      fp := "x";
    } else {
      var u :| u in used;
      var rest := LongerThan(used - {u});
      fp := if |u| < |rest| then rest else u + "x";
    }
  }
}
