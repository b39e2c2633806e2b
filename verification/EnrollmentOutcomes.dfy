/** What each enrollment handler and each recovery does to its receipt
    (cdr_ui.go:438-680, cdr_enroll_receipts.go:568-702): being recoverable would also
    hold of handlers that leave every receipt alone.
 */
module EnrollmentOutcomes {
  import opened Wrappers
  import opened EnrollReceipts
  import En = Enrollment

  /** The one receipt of an operation, in memory and on disk. */
  ghost predicate Shows(s: Store, r: Receipt) {
    && s.mem == s.disk && r in s.mem
    && forall q :: q in s.mem && q.op == r.op ==> q == r
  }

  /** Everything but the receipt of `op` is as before. */
  ghost predicate OnlyReceipt(x: En.World, op: string, y: En.World) {
    y == x.(receipts := y.receipts, open := y.open) && En.OthersKept(x.receipts.mem, op, y.receipts.mem)
  }

  /** A landed update shows the receipt with its new state, its binding unchanged. */
  lemma UpdateShows(x: En.World, r: Receipt, state: State, fp: string, now: int) returns (r': Receipt)
    requires Good(x.receipts) && r in x.receipts.mem && !state.Invalid?
    ensures
      var y := En.SetState(x, r.op, state, fp, now, Written);
      Shows(y.receipts, r') && SameBinding(r, r') && r'.state == state && r'.fp == fp && OnlyReceipt(x, r.op, y) && y.open == x.open
  {
    var items := x.receipts.mem;
    var i := LastIndexOf(items, r.op);
    var next := Plan(items, false, Update(r.op, state, fp, "", now)).items;
    SameOpSameReceipt(items, items[i], r);
    En.UpdateKeepsOthers(items, r.op, state, fp, now);
    r' := next[i];
    UpdateKeeps(items, i, r');
    forall q | q in next && q.op == r.op ensures q == r' { SameOpSameReceipt(next, q, r'); }
  }

  // ─── Recovery ─────────────────────────────────────────────────────────────

  /** Recovery says what became of an unresolved operation: not issued exactly when
      Sluice issued nothing under its binding; otherwise with the fingerprint Sluice
      issued, stored when the registry holds it, else revoked exactly when Sluice
      denies it.  A receipt that already says issued-not-stored keeps saying so
      while the registry holds the credential. */
  lemma RecoveryClassifies(x: En.World, r: Receipt, now: int) returns (r': Receipt)
    requires En.Inv(x) && r in x.receipts.mem && r.Unresolved() && r.op !in x.open
    ensures
      var y := En.Step(x, En.Recovers(r.op, now, Written));
      var k := En.Of(r);
      && OnlyReceipt(x, r.op, y) && y.open == x.open
      && r' in y.receipts.mem && SameBinding(r, r') && (forall q :: q in y.receipts.mem && q.op == r.op ==> q == r')
      && (r'.state.NotIssued? <==> k !in x.issued)
      && (k in x.issued && x.issued[k] !in x.regMem ==>
            (r'.state.Revoked? <==> x.issued[k] in x.revoked) && (r'.state.IssuedNotStored? <==> x.issued[k] !in x.revoked))
      && (k in x.issued && r.state.Dispatched? ==> (r'.state.Stored? <==> x.issued[k] in x.regMem))
      && (k in x.issued && (r.state.Dispatched? || x.issued[k] !in x.regMem) ==> r'.fp == x.issued[k] && Shows(y.receipts, r'))
      && (k in x.issued && r.state.IssuedNotStored? && x.issued[k] in x.regMem ==> y == x)
  {
    var k := En.Of(r);
    var i := IndexOf(x.receipts.mem, r.op);
    SameOpSameReceipt(x.receipts.mem, x.receipts.mem[i], r);
    forall q | q in x.receipts.mem && q.op == r.op ensures q == r { SameOpSameReceipt(x.receipts.mem, q, r); }
    if k !in x.issued {
      r' := UpdateShows(x, r, NotIssued, r.fp, now);
    } else if x.issued[k] !in x.regMem {
      r' := UpdateShows(x, r, if x.issued[k] in x.revoked then Revoked else IssuedNotStored, x.issued[k], now);
    } else if r.state.Dispatched? {
      r' := UpdateShows(x, r, Stored, x.issued[k], now);
    } else {
      r' := r;
    }
  }

  // ─── The handlers ─────────────────────────────────────────────────────────

  lemma ReceiptOfOpen(x: En.World, op: string) returns (r: Receipt)
    requires En.Inv(x) && op in x.open
    ensures r in x.receipts.mem && r.op == op && En.Of(r) == x.open[op].k && r.state.Dispatched? && r.fp == ""
  {
    assert En.OpenHolds(x, op);
    r :| r in x.receipts.mem && En.Of(r) == x.open[op].k && r.state.Dispatched? && r.fp == "";
  }

  /** What the receipt of an operation says when its handler has returned. */
  ghost predicate Ends(x: En.World, op: string, y: En.World, r: Receipt, state: State, fp: string) {
    op !in y.open && y.open == x.open - {op} && Shows(y.receipts, r) && r.state == state && r.fp == fp && op in x.open && En.Of(r) == x.open[op].k
  }

  /** Settling the receipt and closing the operation, whatever handler does it. */
  lemma SettledAndClosed(x: En.World, r0: Receipt, state: State, fp: string, now: int) returns (r: Receipt)
    requires Good(x.receipts) && r0 in x.receipts.mem && r0.op in x.open && En.Of(r0) == x.open[r0.op].k && !state.Invalid?
    ensures
      var y := En.Close(En.SetState(x, r0.op, state, fp, now, Written), r0.op);
      Ends(x, r0.op, y, r, state, fp) && y == x.(receipts := y.receipts, open := y.open)
  {
    r := UpdateShows(x, r0, state, fp, now);
  }

  /** A definite refusal is recorded as not issued. */
  lemma RefusalIsRecorded(x: En.World, op: string, now: int) returns (r: Receipt)
    requires En.Inv(x) && op in x.open && x.open[op].Sent? && x.open[op].k !in x.issued
    ensures Ends(x, op, En.Step(x, En.DefinitelyRefused(op, now, Written)), r, NotIssued, "")
  {
    var r0 := ReceiptOfOpen(x, op);
    r := SettledAndClosed(x, r0, NotIssued, "", now);
  }

  /** An operation Sluice had issued before is parked, with the fingerprint if known. */
  lemma AlreadyIssuedIsRecorded(x: En.World, op: string, known: bool, now: int) returns (r: Receipt)
    requires En.Inv(x) && op in x.open && x.open[op].Sent? && x.open[op].k in x.issued
    ensures Ends(x, op, En.Step(x, En.AlreadyIssued(op, known, now, Written)), r, IssuedNotStored,
                 if known then x.issued[x.open[op].k] else "")
  {
    var r0 := ReceiptOfOpen(x, op);
    var fp := if known then x.issued[x.open[op].k] else "";
    AlreadyIssuedIs(x, op, known, now);
    r := SettledAndClosed(x, r0, IssuedNotStored, fp, now);
  }

  lemma AlreadyIssuedIs(x: En.World, op: string, known: bool, now: int)
    requires op in x.open && x.open[op].Sent? && x.open[op].k in x.issued
    ensures En.Step(x, En.AlreadyIssued(op, known, now, Written)) ==
              En.Close(En.SetState(x, op, IssuedNotStored, if known then x.issued[x.open[op].k] else "", now, Written), op)
  {
  }

  /** A credential that could not be stored is parked with its fingerprint. */
  lemma FailedStoreIsRecorded(x: En.World, op: string, w: Write, now: int) returns (r: Receipt)
    requires En.Inv(x) && op in x.open && x.open[op].IssuedNow? && !w.Written?
    ensures
      var y := En.Step(x, En.Persists(op, w, now, Written));
      && Ends(x, op, y, r, IssuedNotStored, x.open[op].fp) && y.regMem == x.regMem
      && y.regDisk == (if w.NotWritten? then x.regDisk else x.regMem + {x.open[op].fp})
  {
    var r0 := ReceiptOfOpen(x, op);
    FailedStoreIs(x, op, w, now);
    r := SettledAndClosed(FailedStore(x, op, w), r0, IssuedNotStored, x.open[op].fp, now);
  }

  function FailedStore(x: En.World, op: string, w: Write): En.World
    requires op in x.open && x.open[op].IssuedNow?
  {
    if w.NotWritten? then x else x.(regDisk := x.regMem + {x.open[op].fp})
  }

  lemma FailedStoreIs(x: En.World, op: string, w: Write, now: int)
    requires op in x.open && x.open[op].IssuedNow? && !w.Written?
    ensures En.Step(x, En.Persists(op, w, now, Written)) ==
              En.Close(En.SetState(FailedStore(x, op, w), op, IssuedNotStored, x.open[op].fp, now, Written), op)
  {
  }

  /** A stored credential is in the registry, and its receipt then says stored. */
  lemma StoreIsRecorded(x: En.World, op: string, now: int, later: int) returns (r: Receipt)
    requires En.Inv(x) && op in x.open && x.open[op].IssuedNow?
    ensures
      var z := En.Step(En.Step(x, En.Persists(op, Written, now, Written)), En.RecordsStored(op, later, Written));
      && Ends(x, op, z, r, Stored, x.open[op].fp) && z.issued == x.issued
      && z.regMem == x.regMem + {x.open[op].fp} && z.regDisk == x.regMem + {x.open[op].fp}
  {
    var r0 := ReceiptOfOpen(x, op);
    StoreIs(x, op, now, later);
    var y := Landing(x, op);
    r := SettledAndClosed(y, r0, Stored, x.open[op].fp, later);
    assert y.open - {op} == x.open - {op};
  }

  function Landing(x: En.World, op: string): En.World
    requires op in x.open && x.open[op].IssuedNow?
  {
    var fp := x.open[op].fp;
    x.(regMem := x.regMem + {fp}, regDisk := x.regMem + {fp}, open := x.open[op := En.Landed(x.open[op].k, fp)])
  }

  lemma StoreIs(x: En.World, op: string, now: int, later: int)
    requires op in x.open && x.open[op].IssuedNow?
    ensures En.Step(En.Step(x, En.Persists(op, Written, now, Written)), En.RecordsStored(op, later, Written)) ==
              En.Close(En.SetState(Landing(x, op), op, Stored, x.open[op].fp, later, Written), op)
  {
    assert En.Step(x, En.Persists(op, Written, now, Written)) == Landing(x, op);
  }

  /** Once Sluice denies a fingerprint a receipt names, the receipt says revoked. */
  lemma DenialIsRecorded(x: En.World, r: Receipt, now: int) returns (r': Receipt)
    requires En.Inv(x) && r in x.receipts.mem && r.fp != "" && r.fp in x.revoked && r.op !in x.open
    ensures
      var y := En.Step(x, En.MarksRevoked(r.op, now, Written));
      OnlyReceipt(x, r.op, y) && Shows(y.receipts, r') && SameBinding(r, r') && r'.state.Revoked? && r'.fp == r.fp
  {
    var i := IndexOf(x.receipts.mem, r.op);
    SameOpSameReceipt(x.receipts.mem, x.receipts.mem[i], r);
    r' := UpdateShows(x, r, Revoked, r.fp, now);
  }

  /** Any later save of the registry makes up for a file that lacks a credential. */
  lemma RegistrySaveCovers(x: En.World)
    ensures
      var y := En.Step(x, En.RegistrySaves);
      y == x.(regDisk := y.regDisk) && forall k :: !En.Exposed(y, k)
  {
  }

  // ─── Whole enrollments ────────────────────────────────────────────────────

  /** A dispatched enrollment: the receipt is durable before anything is sent. */
  lemma DispatchIsRecorded(x: En.World, r: Receipt)
    requires En.Inv(x) && r.op !in x.open && r.state.Dispatched? && r.fp == "" && Plan(x.receipts.mem, false, Create(r)).Ok?
    ensures var y := En.Step(x, En.Begins(r, Written));
      && En.Inv(y) && Shows(y.receipts, r) && y == x.(receipts := y.receipts, open := x.open[r.op := En.Sent(En.Of(r))])
      && forall q :: q in x.receipts.mem && q.Unresolved() ==> q in y.receipts.mem
  {
    En.StartsKeepsInv(x, r, Written);
    En.EditKeepsUnresolved(x.receipts.mem, Create(r));
    CreateKeeps(x.receipts.mem, r);
    var next := Plan(x.receipts.mem, false, Create(r)).items;
    forall q | q in next && q.op == r.op ensures q == r { SameOpSameReceipt(next, q, r); }
  }

  lemma IssueOpens(x: En.World, op: string, fp: string)
    requires En.Inv(x) && En.Issuable(x, op, fp)
    ensures var y := En.Step(x, En.SluiceIssues(op, fp));
      En.Inv(y) && y == x.(issued := x.issued[x.open[op].k := fp], open := x.open[op := En.IssuedNow(x.open[op].k, fp)])
  {
    En.IssuesKeepsInv(x, op, fp);
  }

  /** An enrollment that meets no failure ends with the credential in the registry,
      in memory and on disk, and its receipt saying stored. */
  lemma CleanEnrollmentIsStored(x: En.World, r: Receipt, fp: string, now: int, later: int) returns (r': Receipt)
    requires En.Inv(x) && r.op !in x.open && r.state.Dispatched? && r.fp == "" && Plan(x.receipts.mem, false, Create(r)).Ok?
    requires En.Of(r) !in x.issued && fp != "" && fp !in x.issued.Values && !x.Settled(fp) && fp !in x.regMem && fp !in x.regDisk
    ensures
      var y := En.Step(En.Step(x, En.Begins(r, Written)), En.SluiceIssues(r.op, fp));
      var z := En.Step(En.Step(y, En.Persists(r.op, Written, now, Written)), En.RecordsStored(r.op, later, Written));
      && z.issued == x.issued[En.Of(r) := fp] && fp in z.regMem && fp in z.regDisk && r.op !in z.open
      && Shows(z.receipts, r') && En.Of(r') == En.Of(r) && r'.state.Stored? && r'.fp == fp
  {
    DispatchIsRecorded(x, r);
    var x1 := En.Step(x, En.Begins(r, Written));
    IssueOpens(x1, r.op, fp);
    var x2 := En.Step(x1, En.SluiceIssues(r.op, fp));
    assert x2.open[r.op] == En.IssuedNow(En.Of(r), fp) && x2.issued == x.issued[En.Of(r) := fp];
    r' := StoreIsRecorded(x2, r.op, now, later);
  }

  /** A lost answer is found out: recovery names the credential to revoke. */
  lemma LostAnswerIsNamed(x: En.World, r: Receipt, fp: string, now: int) returns (r': Receipt)
    requires En.Inv(x) && r.op !in x.open && r.state.Dispatched? && r.fp == "" && Plan(x.receipts.mem, false, Create(r)).Ok?
    requires En.Of(r) !in x.issued && fp != "" && fp !in x.issued.Values && !x.Settled(fp) && fp !in x.regMem && fp !in x.regDisk
    ensures
      var y := En.Step(En.Step(x, En.Begins(r, Written)), En.SluiceIssues(r.op, fp));
      var z := En.Step(En.Step(y, En.ResponseLost(r.op)), En.Recovers(r.op, now, Written));
      Shows(z.receipts, r') && En.Of(r') == En.Of(r) && r'.state.IssuedNotStored? && r'.fp == fp
  {
    DispatchIsRecorded(x, r);
    var x1 := En.Step(x, En.Begins(r, Written));
    IssueOpens(x1, r.op, fp);
    var x2 := En.Step(x1, En.SluiceIssues(r.op, fp));
    En.CloseKeepsInv(x2, r.op);
    var x3 := En.Step(x2, En.ResponseLost(r.op));
    assert x3 == En.Close(x2, r.op);
    r' := RecoveryClassifies(x3, r, now);
  }
}
