/** The durable enrollment receipts (cdr_enroll_receipts.go).

    A receipt is written before an enrollment is dispatched and is the only
    durable handle on a credential Sluice may have issued.
 */
module EnrollReceipts {
  import opened Wrappers
  import opened TwoCopies

  datatype State = Dispatched | Stored | IssuedNotStored | NotIssued | Revoked | Invalid(text: string)

  datatype Receipt = Receipt(
    op: string, name: string, endpoint: string, pin: string, actor: string, startedAt: int,
    state: State, fp: string, note: string, updatedAt: int)
  {
    predicate Terminal() {
      state.Stored? || state.NotIssued? || state.Revoked?
    }

    /** Dispatched or issued_not_stored: the credential may exist. */
    predicate Unresolved() {
      state.Dispatched? || state.IssuedNotStored?
    }
  }

  const MAX_RECEIPTS := 64

  // ─── Grammar ──────────────────────────────────────────────────────────────

  predicate OpChar(c: char) {
    'A' <= c <= 'Z' || 'a' <= c <= 'z' || '0' <= c <= '9' || c == '.' || c == '_' || c == '-'
  }

  /** [A-Za-z0-9._-]{16,64} */
  predicate ValidOp(op: string) {
    16 <= |op| <= 64 && forall i :: 0 <= i < |op| ==> OpChar(op[i])
  }

  predicate HasIdentity(r: Receipt) {
    !Blank(r.name) && !Blank(r.endpoint) && !Blank(r.pin) && !Blank(r.actor)
  }

  predicate WellFormed(r: Receipt) {
    ValidOp(r.op) && !r.state.Invalid? && HasIdentity(r)
  }

  predicate DistinctOps(items: seq<Receipt>) {
    forall i, j :: 0 <= i < j < |items| ==> items[i].op != items[j].op
  }

  /** What the file must look like for the store to accept new operations. */
  predicate Healthy(items: seq<Receipt>) {
    && (forall r :: r in items ==> WellFormed(r))
    && DistinctOps(items)
    && |items| <= MAX_RECEIPTS
  }

  // ─── computeReceiptIntegrity ──────────────────────────────────────────────

  datatype Defect = DuplicateOperation | InvalidOperationId | InvalidState | MissingIdentity | OverCapacity

  datatype Issue = Issue(kind: Defect, op: string, positions: seq<nat>)

  /** The issue describes the list truthfully. */
  predicate True(items: seq<Receipt>, x: Issue) {
    && x.positions != []
    && (forall p :: p in x.positions ==> p < |items|)
    && match x.kind
       case InvalidOperationId => forall p :: p in x.positions ==> !ValidOp(items[p].op)
       case InvalidState => forall p :: p in x.positions ==> items[p].state.Invalid?
       case MissingIdentity => forall p :: p in x.positions ==> !HasIdentity(items[p])
       case DuplicateOperation => |x.positions| > 1 && forall p :: p in x.positions ==> items[p].op == x.op
       case OverCapacity => forall p :: p in x.positions ==> p >= MAX_RECEIPTS
  }

  /** Where `id` occurs below `n`, in increasing order. */
  predicate Occurs(items: seq<Receipt>, n: nat, id: string, ps: seq<nat>)
    requires n <= |items|
  {
    && ps != []
    && (forall k :: 0 <= k < |ps| ==> ps[k] < n && items[ps[k]].op == id)
    && (forall k, l :: 0 <= k < l < |ps| ==> ps[k] < ps[l])
  }

  /** `byId` lists the positions of every valid operation id below `n`. */
  predicate Indexes(items: seq<Receipt>, n: nat, byId: map<string, seq<nat>>)
    requires n <= |items|
  {
    && (forall id :: id in byId ==> Occurs(items, n, id, byId[id]))
    && (forall p :: 0 <= p < n && ValidOp(items[p].op) ==> items[p].op in byId && p in byId[items[p].op])
  }

  lemma ExtendIndexes(items: seq<Receipt>, n: nat, byId: map<string, seq<nat>>)
    requires n < |items| && Indexes(items, n, byId)
    ensures var id := items[n].op;
            Indexes(items, n + 1, if ValidOp(id) then byId[id := (if id in byId then byId[id] else []) + [n]] else byId)
  {
    var id := items[n].op;
    if ValidOp(id) {
      var ps := if id in byId then byId[id] else [];
      var next := byId[id := ps + [n]];
      OccursAppended(items, n, id, ps);
      forall i | i in next ensures Occurs(items, n + 1, i, next[i]) {
        if i != id { OccursKept(items, n, i, byId[i]); }
      }
      forall p | 0 <= p < n + 1 && ValidOp(items[p].op) ensures items[p].op in next && p in next[items[p].op] {
        if p == n { assert (ps + [n])[|ps|] == n; } else { assert p in byId[items[p].op]; }
      }
    } else {
      forall i | i in byId ensures Occurs(items, n + 1, i, byId[i]) { OccursKept(items, n, i, byId[i]); }
    }
  }

  lemma OccursKept(items: seq<Receipt>, n: nat, id: string, ps: seq<nat>)
    requires n < |items| && Occurs(items, n, id, ps)
    ensures Occurs(items, n + 1, id, ps)
  {
  }

  lemma OccursAppended(items: seq<Receipt>, n: nat, id: string, ps: seq<nat>)
    requires n < |items| && items[n].op == id && (ps == [] || Occurs(items, n, id, ps))
    ensures Occurs(items, n + 1, id, ps + [n])
  {
  }

  /** Some issue points at position `i`. */
  ghost predicate Reported(issues: seq<Issue>, i: nat) {
    exists x :: x in issues && i in x.positions
  }

  /** One issue lists both positions as duplicates. */
  ghost predicate ReportedTogether(issues: seq<Issue>, i: nat, j: nat) {
    exists x :: x in issues && x.kind.DuplicateOperation? && i in x.positions && j in x.positions
  }

  /** Reports every malformed receipt and every duplicate, nothing untrue, and
      `ok` exactly on a healthy list. */
  method ComputeReceiptIntegrity(items: seq<Receipt>) returns (ok: bool, issues: seq<Issue>)
    ensures ok <==> issues == []
    ensures ok <==> Healthy(items)
    ensures forall x :: x in issues ==> True(items, x)
    ensures forall i: nat :: i < |items| && !WellFormed(items[i]) ==> Reported(issues, i)
    ensures forall i: nat, j: nat :: i < j < |items| && items[i].op == items[j].op && ValidOp(items[i].op) ==> ReportedTogether(issues, i, j)
  {
    issues := [];
    var byId: map<string, seq<nat>> := map[];
    for i := 0 to |items|
      invariant issues == [] <==> forall j :: 0 <= j < i ==> WellFormed(items[j])
      invariant forall x :: x in issues ==> True(items, x)
      invariant forall j: nat :: j < i && !WellFormed(items[j]) ==> Reported(issues, j)
      invariant Indexes(items, i, byId)
    {
      var shape := ShapeIssues(items, i);
      ghost var earlier := issues;
      ExtendIndexes(items, i, byId);
      if ValidOp(items[i].op) {
        byId := byId[items[i].op := (if items[i].op in byId then byId[items[i].op] else []) + [i]];
      }
      issues := issues + shape;
      if !WellFormed(items[i]) { assert shape[0] in shape && i in shape[0].positions; }
      ReportsGrow(earlier, shape);
    }
    var dups := DuplicateIssues(items, byId);
    if issues == [] { DistinctIffSingle(items, byId); }
    DuplicatesReported(items, byId, dups);
    ReportsGrow(issues, dups);
    issues := issues + dups;
    if |items| > MAX_RECEIPTS {
      var over: seq<nat> := seq(|items| - MAX_RECEIPTS, k requires 0 <= k < |items| - MAX_RECEIPTS => MAX_RECEIPTS + k);
      ReportsGrow(issues, [Issue(OverCapacity, "", over)]);
      issues := issues + [Issue(OverCapacity, "", over)];
    }
    ok := issues == [];
  }

  method ShapeIssues(items: seq<Receipt>, i: nat) returns (out: seq<Issue>)
    requires i < |items|
    ensures out == [] <==> WellFormed(items[i])
    ensures forall x :: x in out ==> True(items, x) && x.positions == [i]
  {
    out := [];
    var it := items[i];
    if !ValidOp(it.op) { out := out + [Issue(InvalidOperationId, "", [i])]; }
    if it.state.Invalid? { out := out + [Issue(InvalidState, it.op, [i])]; }
    if !HasIdentity(it) { out := out + [Issue(MissingIdentity, it.op, [i])]; }
  }

  method DuplicateIssues(items: seq<Receipt>, byId: map<string, seq<nat>>) returns (out: seq<Issue>)
    requires Indexes(items, |items|, byId)
    ensures out == [] <==> forall id :: id in byId ==> |byId[id]| == 1
    ensures forall x :: x in out ==> True(items, x)
    ensures forall id :: id in byId && |byId[id]| > 1 ==> Issue(DuplicateOperation, id, byId[id]) in out
  {
    out := [];
    var ids := byId.Keys;
    while ids != {}
      invariant ids <= byId.Keys
      invariant out == [] <==> forall id :: id in byId && id !in ids ==> |byId[id]| == 1
      invariant forall x :: x in out ==> True(items, x)
      invariant forall id :: id in byId && id !in ids && |byId[id]| > 1 ==> Issue(DuplicateOperation, id, byId[id]) in out
      decreases |ids|
    {
      var id :| id in ids;
      ids := ids - {id};
      assert Occurs(items, |items|, id, byId[id]);
      if |byId[id]| > 1 { out := out + [Issue(DuplicateOperation, id, byId[id])]; }
    }
  }

  lemma ReportsGrow(a: seq<Issue>, b: seq<Issue>)
    ensures forall i: nat :: Reported(a, i) || Reported(b, i) ==> Reported(a + b, i)
    ensures forall i: nat, j: nat :: ReportedTogether(a, i, j) || ReportedTogether(b, i, j) ==> ReportedTogether(a + b, i, j)
  {
  }

  lemma DuplicatesReported(items: seq<Receipt>, byId: map<string, seq<nat>>, out: seq<Issue>)
    requires Indexes(items, |items|, byId)
    requires forall id :: id in byId && |byId[id]| > 1 ==> Issue(DuplicateOperation, id, byId[id]) in out
    ensures forall i: nat, j: nat :: i < j < |items| && items[i].op == items[j].op && ValidOp(items[i].op) ==> ReportedTogether(out, i, j)
  {
    forall i: nat, j: nat | i < j < |items| && items[i].op == items[j].op && ValidOp(items[i].op)
      ensures ReportedTogether(out, i, j)
    {
      var ps := byId[items[i].op];
      assert i in ps && j in ps && |ps| > 1;
      assert Issue(DuplicateOperation, items[i].op, ps) in out;
    }
  }

  lemma DistinctIffSingle(items: seq<Receipt>, byId: map<string, seq<nat>>)
    requires Indexes(items, |items|, byId)
    requires forall j :: 0 <= j < |items| ==> WellFormed(items[j])
    ensures DistinctOps(items) <==> forall id :: id in byId ==> |byId[id]| == 1
  {
    if id :| id in byId && |byId[id]| != 1 {
      var ps := byId[id];
      assert Occurs(items, |items|, id, ps);
      assert ps[0] < ps[1];
      assert items[ps[0]].op == items[ps[1]].op;
    } else {
      forall i, j | 0 <= i < j < |items|
        ensures items[i].op != items[j].op
      {
        var ps := byId[items[i].op];
        assert i in ps && |ps| == 1;
      }
    }
  }

  // ─── Operations on the list ───────────────────────────────────────────────

  datatype Error = Refused | Degraded | Exists | Missing | StillUnresolved | Full | BadReceipt | SaveFailed

  /** The first position holding `op`, or `|items|`. */
  function IndexOf(items: seq<Receipt>, op: string): (r: nat)
    ensures r <= |items|
    ensures forall j :: 0 <= j < r ==> items[j].op != op
    ensures r < |items| ==> items[r].op == op
  {
    if items == [] then 0
    else if items[0].op == op then 0
    else
      var k := IndexOf(items[1..], op);
      assert forall j :: 1 <= j < k + 1 ==> items[j] == items[1..][j - 1];
      k + 1
  }

  /** The oldest receipt that may be evicted, or `|items|`. */
  function OldestTerminal(items: seq<Receipt>, keep: string): (r: nat)
    ensures r <= |items|
    ensures forall j :: 0 <= j < r ==> !items[j].Terminal() || items[j].op == keep
    ensures r < |items| ==> items[r].Terminal() && items[r].op != keep
  {
    if items == [] then 0
    else if items[0].Terminal() && items[0].op != keep then 0
    else
      var k := OldestTerminal(items[1..], keep);
      assert forall j :: 1 <= j < k + 1 ==> items[j] == items[1..][j - 1];
      k + 1
  }

  function Remove(items: seq<Receipt>, i: nat): seq<Receipt>
    requires i < |items|
  {
    items[..i] + items[i + 1..]
  }

  /** Evicts oldest terminal receipts until the list fits; the flag says whether it does. */
  function WithinCapacity(items: seq<Receipt>, keep: string): (seq<Receipt>, bool)
    decreases |items|
  {
    if |items| <= MAX_RECEIPTS then (items, true)
    else
      var i := OldestTerminal(items, keep);
      if i == |items| then (items, false) else WithinCapacity(Remove(items, i), keep)
  }

  /** What Update lets through: state, fingerprint and note. */
  function Bind(prev: Receipt, state: State, fp: string, note: string, now: int): Receipt {
    prev.(state := state, fp := fp, note := note, updatedAt := now)
  }

  predicate SameBinding(a: Receipt, b: Receipt) {
    a.op == b.op && a.name == b.name && a.endpoint == b.endpoint && a.pin == b.pin && a.actor == b.actor && a.startedAt == b.startedAt
  }

  datatype Request =
    | Create(r: Receipt)
    | Update(op: string, state: State, fp: string, note: string, now: int)
    | Delete(op: string)
    | DeleteAt(position: int, expected: string)

  datatype Edit = Ok(items: seq<Receipt>) | Err(error: Error)

  /** The list a request would save, or why it is refused.  `degraded` is the
      integrity verdict of the last load or removal. */
  function Plan(items: seq<Receipt>, degraded: bool, q: Request): Edit {
    match q
    case Create(r) =>
      if !WellFormed(r) then Err(BadReceipt)
      else if degraded then Err(Degraded)
      else if IndexOf(items, r.op) < |items| then Err(Exists)
      else
        var (next, fits) := WithinCapacity(items + [r], r.op);
        if fits then Ok(next) else Err(Full)
    case Update(op, state, fp, note, now) =>
      var i := LastIndexOf(items, op);
      if i < 0 then Err(Missing)
      else if state.Invalid? then Err(BadReceipt)
      else Ok(items[i := Bind(items[i], state, fp, note, now)])
    case Delete(op) =>
      var i := IndexOf(items, op);
      if i == |items| then Err(Missing)
      else if !items[i].Terminal() then Err(StillUnresolved)
      else Ok(Remove(items, i))
    case DeleteAt(p, expected) =>
      if !degraded || !(0 <= p < |items|) || items[p].op != expected then Err(Refused)
      else Ok(Remove(items, p))
  }

  function LastIndexOf(items: seq<Receipt>, op: string): (r: int)
    ensures -1 <= r < |items|
    ensures r >= 0 ==> items[r].op == op
    ensures forall j :: r < j < |items| ==> items[j].op != op
  {
    if items == [] then -1
    else if items[|items| - 1].op == op then |items| - 1
    else LastIndexOf(items[..|items| - 1], op)
  }

  // ─── What eviction does ───────────────────────────────────────────────────

  /** Capacity eviction drops terminal receipts only, never the one being
      created, and never an unresolved one; it fails exactly when fewer
      evictable receipts remain than the overflow. */
  lemma {:induction false} EvictionIsHarmless(items: seq<Receipt>, keep: string)
    ensures var (next, fits) := WithinCapacity(items, keep);
            && (forall r :: r in next ==> r in items)
            && (forall r :: r in items && (!r.Terminal() || r.op == keep) ==> r in next)
            && (fits <==> |next| <= MAX_RECEIPTS)
            && (|items| <= MAX_RECEIPTS ==> next == items)
            && (|items| > MAX_RECEIPTS && fits ==> |next| == MAX_RECEIPTS)
            && (!fits ==> forall r :: r in next ==> !r.Terminal() || r.op == keep)
    decreases |items|
  {
    if |items| > MAX_RECEIPTS {
      var i := OldestTerminal(items, keep);
      if i < |items| {
        EvictionIsHarmless(Remove(items, i), keep);
        assert items == items[..i] + [items[i]] + items[i + 1..];
      }
    }
  }

  lemma RemoveKeepsDistinct(items: seq<Receipt>, i: nat)
    requires DistinctOps(items) && i < |items|
    ensures DistinctOps(Remove(items, i))
  {
    var next := Remove(items, i);
    assert forall k :: 0 <= k < |next| ==> next[k] == if k < i then items[k] else items[k + 1];
  }

  lemma {:induction false} EvictionKeepsDistinct(items: seq<Receipt>, keep: string)
    requires DistinctOps(items)
    ensures DistinctOps(WithinCapacity(items, keep).0)
    decreases |items|
  {
    if |items| > MAX_RECEIPTS {
      var i := OldestTerminal(items, keep);
      if i < |items| {
        RemoveKeepsDistinct(items, i);
        EvictionKeepsDistinct(Remove(items, i), keep);
      }
    }
  }

  /** A full healthy store makes room by evicting exactly its oldest terminal
      receipt and refuses when it has none; everything else keeps its place. */
  lemma FullStoreEvictsOldest(items: seq<Receipt>, r: Receipt)
    requires Healthy(items) && |items| == MAX_RECEIPTS && WellFormed(r) && IndexOf(items, r.op) == |items|
    ensures var i := OldestTerminal(items, r.op);
            Plan(items, false, Create(r)) == if i == |items| then Err(Full) else Ok(Remove(items, i) + [r])
  {
    var all := items + [r];
    var i, k := OldestTerminal(items, r.op), OldestTerminal(all, r.op);
    assert forall j :: 0 <= j < |items| ==> all[j] == items[j];
    assert all[|items|] == r;
    assert k == if i == |items| then |all| else i;
    if i < |items| {
      assert Remove(all, i) == Remove(items, i) + [r];
      assert WithinCapacity(all, r.op) == WithinCapacity(Remove(all, i), r.op);
    } else {
      assert WithinCapacity(all, r.op) == (all, false);
    }
  }

  /** `next` is the list without position `p`, the rest in order. */
  predicate LacksOnly(items: seq<Receipt>, p: nat, next: seq<Receipt>) {
    && p < |items| == |next| + 1
    && (forall k :: 0 <= k < p ==> next[k] == items[k])
    && (forall k :: p <= k < |next| ==> next[k] == items[k + 1])
  }

  ghost predicate Carries(items: seq<Receipt>, op: string) {
    exists r :: r in items && r.op == op
  }

  /** A created receipt is there, with nothing but receipts from before; it is
      refused, other than for capacity, exactly when malformed, while degraded, or
      when its operation has a receipt. */
  lemma CreateDoes(items: seq<Receipt>, degraded: bool, r: Receipt)
    ensures
      var p := Plan(items, degraded, Create(r));
      && (p.Ok? ==> r in p.items && forall a :: a in p.items ==> a == r || a in items)
      && (p.Ok? || p.error == Full <==> WellFormed(r) && !degraded && !Carries(items, r.op))
  {
    EvictionIsHarmless(items + [r], r.op);
    var i := IndexOf(items, r.op);
    if i < |items| { assert items[i] in items; }
    assert (items + [r])[|items|] == r;
  }

  /** An update changes state, fingerprint, note and time of the last receipt of its
      operation, and nothing else; to any list, degraded or not. */
  lemma UpdateDoes(items: seq<Receipt>, degraded: bool, op: string, state: State, fp: string, note: string, now: int)
    ensures
      var p := Plan(items, degraded, Update(op, state, fp, note, now));
      && (p.Ok? <==> Carries(items, op) && !state.Invalid?)
      && (p.Ok? ==> exists i: nat :: LastOf(items, op, i) && ChangesOnly(items, i, p.items, state, fp, note, now))
  {
    var i := LastIndexOf(items, op);
    if i >= 0 { assert items[i] in items && LastOf(items, op, i); }
  }

  predicate ChangesOnly(items: seq<Receipt>, i: nat, next: seq<Receipt>, state: State, fp: string, note: string, now: int) {
    && i < |items| == |next| && SameBinding(items[i], next[i])
    && next[i].state == state && next[i].fp == fp && next[i].note == note && next[i].updatedAt == now
    && forall k :: 0 <= k < |items| && k != i ==> next[k] == items[k]
  }

  /** A removal takes the first receipt of its operation, which must be terminal. */
  lemma DeleteDoes(items: seq<Receipt>, degraded: bool, op: string)
    ensures
      var p := Plan(items, degraded, Delete(op));
      && (p.Ok? ==> exists i: nat :: FirstOf(items, op, i) && items[i].Terminal() && LacksOnly(items, i, p.items))
      && (p.Err? ==> !Carries(items, op) || exists i: nat :: FirstOf(items, op, i) && !items[i].Terminal())
  {
    var i := IndexOf(items, op);
    if i < |items| { assert items[i] in items && FirstOf(items, op, i); }
  }

  /** A removal by position takes exactly the receipt there, only while degraded and
      only under the operation id expected. */
  lemma DeleteAtDoes(items: seq<Receipt>, degraded: bool, at: int, expected: string)
    ensures
      var p := Plan(items, degraded, DeleteAt(at, expected));
      && (p.Ok? <==> degraded && 0 <= at < |items| && items[at].op == expected)
      && (p.Ok? ==> LacksOnly(items, at, p.items))
  {
  }

  predicate LastOf(items: seq<Receipt>, op: string, i: nat) {
    i < |items| && items[i].op == op && forall k :: i < k < |items| ==> items[k].op != op
  }

  predicate FirstOf(items: seq<Receipt>, op: string, i: nat) {
    i < |items| && items[i].op == op && forall k :: 0 <= k < i ==> items[k].op != op
  }

  // ─── The store over every run ─────────────────────────────────────────────

  /** Memory, file, and the degraded verdict in force. */
  datatype Store = Store(mem: seq<Receipt>, disk: seq<Receipt>, degraded: bool)

  /** The verdict is recomputed by removals (and loads) only. */
  function DegradedAfter(s: Store, q: Request, next: seq<Receipt>): bool {
    if q.Delete? || q.DeleteAt? then !Healthy(next) else s.degraded
  }

  /** One call: the plan is saved, and memory follows only on a clean write. */
  function Call(s: Store, q: Request, w: Write): Store {
    match Plan(s.mem, s.degraded, q)
    case Err(_) => s
    case Ok(next) =>
      match w
      case Written => Store(next, next, DegradedAfter(s, q, next))
      case NotWritten => s
      case ReplacedNotSynced => s.(disk := next)
  }

  function Restart(s: Store): Store {
    Store(s.disk, s.disk, !Healthy(s.disk))
  }

  datatype Event = Calls(q: Request, w: Write) | Restarts

  function Step(s: Store, e: Event): Store {
    match e
    case Calls(q, w) => Call(s, q, w)
    case Restarts => Restart(s)
  }

  function Trace(s: Store, events: seq<Event>): Store
    decreases |events|
  {
    if events == [] then s else Trace(Step(s, events[0]), events[1..])
  }

  /** A call is acknowledged exactly when it lands, in memory and file at once; the
      verdict follows each removal.  A restart shows the file, judged. */
  lemma AcknowledgedIffLanded(s: Store, q: Request, w: Write)
    ensures
      var y, p := Call(s, q, w), Plan(s.mem, s.degraded, q);
      && (p.Ok? && w.Written? ==> y.mem == p.items && y.disk == p.items)
      && (p.Ok? && w.Written? && (q.Delete? || q.DeleteAt?) ==> (y.degraded <==> !Healthy(y.mem)))
      && (!(p.Ok? && w.Written?) ==> y.mem == s.mem && y.degraded == s.degraded)
      && (y.disk != s.disk ==> p.Ok? && !w.NotWritten? && y.disk == p.items)
    ensures Restart(s).mem == s.disk && Restart(s).disk == s.disk && (Restart(s).degraded <==> !Healthy(s.disk))
  {
  }

  /** An unresolved receipt of `a` is in `b` under the same binding. */
  ghost predicate KeepsUnresolved(a: seq<Receipt>, b: seq<Receipt>) {
    forall r :: r in a && r.Unresolved() ==> exists r' :: r' in b && SameBinding(r, r')
  }

  /** Every receipt of `b` that carries an operation of `a` has its binding. */
  ghost predicate KeepsBindings(a: seq<Receipt>, b: seq<Receipt>) {
    forall r, r' :: r in a && r' in b && r.op == r'.op ==> SameBinding(r, r')
  }

  /** Both copies are healthy, the store knows it, and what memory still has
      unresolved a restart would find. */
  ghost predicate Good(s: Store) {
    && Healthy(s.mem) && Healthy(s.disk) && !s.degraded
    && KeepsUnresolved(s.mem, s.disk) && KeepsBindings(s.mem, s.disk)
  }

  lemma SameOpSameReceipt(items: seq<Receipt>, a: Receipt, b: Receipt)
    requires DistinctOps(items) && a in items && b in items && a.op == b.op
    ensures a == b
  {
    var i :| 0 <= i < |items| && items[i] == a;
    var j :| 0 <= j < |items| && items[j] == b;
  }

  /** A planned edit of a healthy list is healthy, forgets nothing unresolved
      and rebinds nothing. */
  lemma PlanKeeps(items: seq<Receipt>, q: Request)
    requires Healthy(items) && Plan(items, false, q).Ok?
    ensures Healthy(Plan(items, false, q).items)
    ensures KeepsUnresolved(items, Plan(items, false, q).items)
    ensures KeepsBindings(items, Plan(items, false, q).items)
  {
    match q {
      case Create(r) => CreateKeeps(items, r);
      case Update(op, state, fp, note, now) =>
        var i := LastIndexOf(items, op);
        UpdateKeeps(items, i, Bind(items[i], state, fp, note, now));
      case Delete(op) => DeleteKeeps(items, op);
      case DeleteAt(p, expected) =>
    }
  }

  lemma CreateKeeps(items: seq<Receipt>, r: Receipt)
    requires Healthy(items) && Plan(items, false, Create(r)).Ok?
    ensures var next := Plan(items, false, Create(r)).items;
      Healthy(next) && KeepsUnresolved(items, next) && KeepsBindings(items, next)
  {
    var all := items + [r];
    var next := Plan(items, false, Create(r)).items;
    assert DistinctOps(all);
    EvictionIsHarmless(all, r.op);
    EvictionKeepsDistinct(all, r.op);
    forall a, b | a in items && b in next && a.op == b.op ensures SameBinding(a, b) {
      SameOpSameReceipt(all, a, b);
    }
  }

  lemma DeleteKeeps(items: seq<Receipt>, op: string)
    requires Healthy(items) && Plan(items, false, Delete(op)).Ok?
    ensures var next := Plan(items, false, Delete(op)).items;
      Healthy(next) && KeepsUnresolved(items, next) && KeepsBindings(items, next)
  {
    var i := IndexOf(items, op);
    var next := Remove(items, i);
    RemoveKeepsDistinct(items, i);
    assert items == items[..i] + [items[i]] + items[i + 1..];
    assert forall r :: r in items ==> r in next || r == items[i];
    forall a, b | a in items && b in next && a.op == b.op ensures SameBinding(a, b) {
      SameOpSameReceipt(items, a, b);
    }
  }

  lemma UpdateKeeps(items: seq<Receipt>, i: nat, r: Receipt)
    requires Healthy(items) && i < |items| && SameBinding(items[i], r) && !r.state.Invalid?
    ensures Healthy(items[i := r])
    ensures KeepsUnresolved(items, items[i := r])
    ensures KeepsBindings(items, items[i := r])
  {
    var next := items[i := r];
    assert items[i] in items;
    forall a | a in next ensures WellFormed(a) {
      var k :| 0 <= k < |next| && next[k] == a;
      assert k != i ==> items[k] in items;
    }
    forall a | a in items ensures exists b :: b in next && SameBinding(a, b) {
      var k :| 0 <= k < |items| && items[k] == a;
      assert next[k] in next && SameBinding(a, next[k]);
    }
    forall a, b | a in items && b in next && a.op == b.op ensures SameBinding(a, b) {
      var k :| 0 <= k < |items| && items[k] == a;
      var l :| 0 <= l < |next| && next[l] == b;
      assert items[l].op == b.op;
      assert k == l;
    }
  }

  lemma StepKeepsGood(s: Store, e: Event)
    requires Good(s)
    ensures Good(Step(s, e))
    ensures KeepsUnresolved(s.mem, Step(s, e).mem) && KeepsBindings(s.mem, Step(s, e).mem)
  {
    match e
    case Restarts => SelfKeeps(s.disk);
    case Calls(q, w) =>
      SelfKeeps(s.mem);
      if Plan(s.mem, s.degraded, q).Ok? {
        PlanKeeps(s.mem, q);
        SelfKeeps(Plan(s.mem, s.degraded, q).items);
      }
  }

  lemma SelfKeeps(items: seq<Receipt>)
    requires DistinctOps(items)
    ensures KeepsUnresolved(items, items) && KeepsBindings(items, items)
  {
    forall a, b | a in items && b in items && a.op == b.op ensures SameBinding(a, b) {
      SameOpSameReceipt(items, a, b);
    }
  }

  /** A healthy store stays healthy over every run of calls, failed writes and
      restarts. */
  lemma {:induction false} StoreStaysGood(s: Store, events: seq<Event>)
    requires Good(s)
    ensures Good(Trace(s, events))
    decreases |events|
  {
    if events != [] {
      StepKeepsGood(s, events[0]);
      StoreStaysGood(Step(s, events[0]), events[1..]);
    }
  }

  ghost predicate Present(items: seq<Receipt>, r: Receipt) {
    exists r' :: r' in items && SameBinding(r, r')
  }

  /** After the first `n` events the operation is there in a terminal state. */
  ghost predicate ResolvedAt(s: Store, events: seq<Event>, n: nat, r: Receipt) {
    n <= |events| && exists r' :: r' in Trace(s, events[..n]).mem && SameBinding(r, r') && r'.Terminal()
  }

  lemma ResolvedLater(s: Store, events: seq<Event>, n: nat, r: Receipt)
    requires events != [] && ResolvedAt(Step(s, events[0]), events[1..], n, r)
    ensures ResolvedAt(s, events, n + 1, r)
  {
    assert events[..n + 1][1..] == events[1..][..n];
    assert Trace(s, events[..n + 1]) == Trace(Step(s, events[0]), events[1..][..n]);
  }

  /** An unresolved receipt leaves a healthy store only after an update resolved
      it: over any run, either its operation is still there under its original
      binding, or at some earlier moment it was there in a terminal state. */
  lemma {:induction false} UnresolvedNeverDisappears(s: Store, events: seq<Event>, r: Receipt)
    requires Good(s) && r in s.mem && r.Unresolved()
    ensures Present(Trace(s, events).mem, r) || exists n :: ResolvedAt(s, events, n, r)
    decreases |events|
  {
    if events == [] {
      assert SameBinding(r, r);
    } else {
      var s1 := Step(s, events[0]);
      StepKeepsGood(s, events[0]);
      var r1 :| r1 in s1.mem && SameBinding(r, r1);
      if r1.Terminal() {
        assert events[1..][..0] == [];
        assert ResolvedAt(s1, events[1..], 0, r);
        ResolvedLater(s, events, 0, r);
      } else {
        assert WellFormed(r1);
        UnresolvedNeverDisappears(s1, events[1..], r1);
        if n :| ResolvedAt(s1, events[1..], n, r1) {
          assert ResolvedAt(s1, events[1..], n, r);
          ResolvedLater(s, events, n, r);
        }
      }
    }
  }

  /** What a step does to the two copies. */
  function EffectOf(s: Store, e: Event): Effect<seq<Receipt>> {
    match e
    case Restarts => MemoryOnly(s.disk)
    case Calls(q, w) => match Plan(s.mem, s.degraded, q) case Err(_) => Nothing case Ok(next) => Writes(next, w)
  }

  function Effects(s: Store, events: seq<Event>): seq<Effect<seq<Receipt>>>
    decreases |events|
  {
    if events == [] then [] else [EffectOf(s, events[0])] + Effects(Step(s, events[0]), events[1..])
  }

  lemma {:induction false} TraceIsEffects(s: Store, events: seq<Event>)
    ensures ApplyAll(Copies(s.mem, s.disk), Effects(s, events)) == Copies(Trace(s, events).mem, Trace(s, events).disk)
    decreases |events|
  {
    if events != [] {
      TraceIsEffects(Step(s, events[0]), events[1..]);
      assert Effects(s, events)[1..] == Effects(Step(s, events[0]), events[1..]);
    }
  }

  /** From equal copies, memory equals the file after a run if and only if no
      different list was saved but reported as failed without a landed save or a
      restart since. */
  lemma MemoryEqualsDiskIff(s: Store, events: seq<Event>)
    requires s.mem == s.disk
    ensures
      var y := Trace(s, events);
      y.mem == y.disk <==> !exists n: nat :: PartedAt(Copies(s.mem, s.disk), Effects(s, events), n)
  {
    TraceIsEffects(s, events);
    EqualIffNotParted(Copies(s.mem, s.disk), Effects(s, events));
  }

  /** How reading the file at start ends; a missing file is an empty list. */
  datatype Reading = Reads | Unreadable | Unparsable

  function Loaded(s: Store, r: Reading): Store {
    match r
    case Reads => Restart(s)
    case Unreadable => s.(degraded := true)
    case Unparsable => s.(mem := [], degraded := true)
  }

  /** After a start that could not parse its file no run of calls touches it: the
      store stays empty, degraded and refuses everything. */
  lemma {:induction false} DamagedFileIsKept(s: Store, events: seq<Event>)
    requires s.mem == [] && s.degraded && forall i :: 0 <= i < |events| ==> events[i].Calls?
    ensures Trace(s, events) == s
    decreases |events|
  {
    if events != [] {
      assert events[0].Calls?;
      assert Plan(s.mem, s.degraded, events[0].q).Err?;
      DamagedFileIsKept(s, events[1..]);
    }
  }

  function Repairs(events: seq<Event>): bool {
    forall i :: 0 <= i < |events| ==> events[i].Calls? && events[i].q.DeleteAt? && events[i].w.Written?
  }

  /** Every degraded store can be repaired by positional removals alone, which the
      verdict follows one by one: they end with a healthy list and the store back
      in service. */
  lemma {:induction false} RepairIsPossible(s: Store) returns (events: seq<Event>)
    requires s.degraded
    ensures Repairs(events) && (s.mem != [] ==> !Trace(s, events).degraded && Healthy(Trace(s, events).mem))
    decreases |s.mem|
  {
    if s.mem == [] {
      events := [];
    } else {
      var e := Calls(DeleteAt(0, s.mem[0].op), Written);
      var s1 := Step(s, e);
      assert s1 == Store(s.mem[1..], s.mem[1..], !Healthy(s.mem[1..])) by { assert Remove(s.mem, 0) == s.mem[1..]; }
      if s1.degraded {
        var rest := RepairIsPossible(s1);
        events := [e] + rest;
        assert events[1..] == rest;
        assert s1.mem != [];
      } else {
        events := [e];
        assert events[1..] == [];
      }
    }
  }

  // ─── The code itself ──────────────────────────────────────────────────────

  class ReceiptStore {
    var items: seq<Receipt>
    var disk: seq<Receipt>
    var degraded: bool

    ghost function View(): Store
      reads this
    {
      Store(items, disk, degraded)
    }

    method SaveLocked(w: Write) returns (ok: bool)
      modifies this`disk
      ensures ok <==> w.Written?
      ensures disk == if w.NotWritten? then old(disk) else items
    {
      if !w.NotWritten? { disk := items; }
      ok := w.Written?;
    }

    /** Load: whatever parses is kept verbatim and judged; a file that cannot be
        read or parsed degrades the store. */
    method Load(r: Reading) returns (ok: bool)
      modifies this
      ensures View() == Loaded(old(View()), r)
      ensures ok <==> r.Reads?
    {
      if r.Unreadable? { degraded := true; return false; }
      if r.Unparsable? { items, degraded := [], true; return false; }
      items := disk;
      var healthy, _ := ComputeReceiptIntegrity(items);
      degraded := !healthy;
      return true;
    }

    method CreateReceipt(r: Receipt, w: Write) returns (e: Edit)
      modifies this
      ensures View() == Call(old(View()), Create(r), w)
      ensures e == match Plan(old(items), old(degraded), Create(r))
                   case Err(x) => Err(x)
                   case Ok(next) => if w.Written? then Ok(next) else Err(SaveFailed)
    {
      if !WellFormed(r) { return Err(BadReceipt); }
      if degraded { return Err(Degraded); }
      for i := 0 to |items|
        invariant forall j :: 0 <= j < i ==> items[j].op != r.op
      {
        if items[i].op == r.op { return Err(Exists); }
      }
      var prev := items;
      var next, fits := FitCapacity(prev + [r], r.op);
      if !fits { return Err(Full); }
      items := next;
      var ok := SaveLocked(w);
      if !ok { items := prev; return Err(SaveFailed); }
      return Ok(next);
    }

    static method FitCapacity(all: seq<Receipt>, keep: string) returns (next: seq<Receipt>, fits: bool)
      ensures (next, fits) == WithinCapacity(all, keep)
    {
      next := all;
      while |next| > MAX_RECEIPTS
        invariant WithinCapacity(next, keep) == WithinCapacity(all, keep)
        decreases |next|
      {
        var i := 0;
        while i < |next| && !(next[i].Terminal() && next[i].op != keep)
          invariant i <= |next|
          invariant forall j :: 0 <= j < i ==> !(next[j].Terminal() && next[j].op != keep)
        {
          i := i + 1;
        }
        assert i == OldestTerminal(next, keep);
        if i == |next| { return next, false; }
        next := next[..i] + next[i + 1..];
      }
      fits := true;
    }

    method UpdateReceipt(op: string, state: State, fp: string, note: string, now: int, w: Write) returns (e: Edit)
      modifies this
      ensures View() == Call(old(View()), Update(op, state, fp, note, now), w)
      ensures e.Ok? <==> Plan(old(items), old(degraded), Update(op, state, fp, note, now)).Ok? && w.Written?
    {
      var idx := -1;
      for i := 0 to |items|
        invariant -1 <= idx < i
        invariant idx >= 0 ==> items[idx].op == op
        invariant forall j :: idx < j < i ==> items[j].op != op
      {
        if items[i].op == op { idx := i; }
      }
      assert idx == LastIndexOf(items, op);
      if idx < 0 { return Err(Missing); }
      var prev := items;
      items := items[idx := Bind(items[idx], state, fp, note, now)];
      if state.Invalid? { items := prev; return Err(BadReceipt); }
      var ok := SaveLocked(w);
      if !ok { items := prev; return Err(SaveFailed); }
      return Ok(items);
    }

    method DeleteReceipt(op: string, w: Write) returns (e: Edit)
      modifies this
      ensures View() == Call(old(View()), Delete(op), w)
      ensures e.Ok? <==> Plan(old(items), old(degraded), Delete(op)).Ok? && w.Written?
    {
      var i := 0;
      while i < |items| && items[i].op != op
        invariant i <= |items|
        invariant forall j :: 0 <= j < i ==> items[j].op != op
      {
        i := i + 1;
      }
      assert i == IndexOf(items, op);
      if i == |items| { return Err(Missing); }
      if !items[i].Terminal() { return Err(StillUnresolved); }
      e := RemoveAtLocked(i, w);
    }

    method DeleteReceiptAt(position: int, expected: string, w: Write) returns (e: Edit)
      modifies this
      ensures View() == Call(old(View()), DeleteAt(position, expected), w)
      ensures e.Ok? <==> Plan(old(items), old(degraded), DeleteAt(position, expected)).Ok? && w.Written?
    {
      if !degraded || position < 0 || position >= |items| || items[position].op != expected { return Err(Refused); }
      e := RemoveAtLocked(position, w);
    }

    method RemoveAtLocked(i: nat, w: Write) returns (e: Edit)
      requires i < |items|
      modifies this
      ensures w.Written? ==> View() == Store(Remove(old(items), i), Remove(old(items), i), !Healthy(Remove(old(items), i)))
      ensures w.NotWritten? ==> View() == old(View())
      ensures w.ReplacedNotSynced? ==> View() == old(View()).(disk := Remove(old(items), i))
      ensures e == if w.Written? then Ok(items) else Err(SaveFailed)
    {
      var prev, prevDegraded := items, degraded;
      items := prev[..i] + prev[i + 1..];
      var healthy, _ := ComputeReceiptIntegrity(items);
      degraded := !healthy;
      var ok := SaveLocked(w);
      if !ok { items, degraded := prev, prevDegraded; return Err(SaveFailed); }
      return Ok(items);
    }
  }
}
