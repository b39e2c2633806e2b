/** Migrating a client private key to encryption at rest
    (cdr_client_keyatrest.go:111-195), with crashes between any two steps, every
    write failing in every way, and the migration started again at will.
 */
module KeyAtRest {
  import opened Wrappers

  /** `Sealed` holds the key under one key-encryption key; `Junk` is a file that
      neither parses nor decrypts. */
  datatype File = Absent | Plain(pem: string) | Sealed(pem: string, kek: nat) | Junk

  datatype Phase =
    | Idle
    | Quarantined(pem: string)   // plaintext copied aside
    | Rewritten(pem: string)     // key file replaced, not yet verified
    | Failing                    // about to restore
    | Migrated(pem: string)      // reported success

  datatype World = World(key: File, bak: File, kek: Option<nat>, phase: Phase)

  /** `sound` is false when the bytes written do not decrypt to the key. */
  datatype Event =
    | Begin(w: Write)
    | MakeKek(id: nat)
    | Seal(w: Write, sound: bool)
    | Verify(readable: bool)
    | Restore(readable: bool, w: Write)
    | Crash

  function Put(w: Write, file: File, before: File): File {
    if w.NotWritten? then before else file
  }

  /** The entry checks and the quarantine copy. */
  function Begins(x: World, w: Write): World {
    if !x.phase.Idle? || !x.key.Plain? then x
    else x.(bak := Put(w, x.key, x.bak), phase := if w.Written? then Quarantined(x.key.pem) else Idle)
  }

  function Seals(x: World, w: Write, sound: bool): World {
    if !x.phase.Quarantined? then x
    else if x.kek.None? then x.(phase := Failing)
    else
      var pem := x.phase.pem;
      x.(key := Put(w, if sound then Sealed(pem, x.kek.value) else Junk, x.key), phase := if w.Written? then Rewritten(pem) else Failing)
  }

  /** The plaintext the key file gives with the key-encryption key at hand. */
  function Opened(x: World): Option<string> {
    match x.key
    case Plain(pem) => Some(pem)
    case Sealed(pem, k) => if x.kek == Some(k) then Some(pem) else None
    case _ => None
  }

  /** Reading back takes an encrypted file only. */
  function Verifies(x: World, readable: bool): World {
    if !x.phase.Rewritten? then x
    else x.(phase := if readable && x.key.Sealed? && Opened(x) == Some(x.phase.pem) then Migrated(x.phase.pem) else Failing)
  }

  function Restores(x: World, readable: bool, w: Write): World {
    if !x.phase.Failing? then x
    else x.(key := if readable && !x.bak.Absent? then Put(w, x.bak, x.key) else x.key, phase := Idle)
  }

  function Step(x: World, e: Event): World {
    match e
    case Begin(w) => Begins(x, w)
    case MakeKek(id) => if x.kek.None? then x.(kek := Some(id)) else x
    case Seal(w, sound) => Seals(x, w, sound)
    case Verify(readable) => Verifies(x, readable)
    case Restore(readable, w) => Restores(x, readable, w)
    case Crash => x.(phase := Idle)
  }

  function Run(x: World, events: seq<Event>): World
    decreases |events|
  {
    if events == [] then x else Run(Step(x, events[0]), events[1..])
  }

  /** The original key can be read from the key file or from the quarantine copy. */
  predicate Recoverable(x: World, pem: string) {
    Opened(x) == Some(pem) || x.bak == Plain(pem)
  }

  predicate Inv(x: World, pem: string) {
    && (x.key == Plain(pem) || x.bak == Plain(pem))
    && (x.key.Plain? ==> x.key.pem == pem)
    && (x.key.Sealed? ==> x.key.pem == pem && x.kek == Some(x.key.kek))
    && !x.key.Absent?
    && match x.phase
       case Idle => true
       case Quarantined(p) => p == pem && x.bak == Plain(pem)
       case Rewritten(p) => p == pem && x.bak == Plain(pem)
       case Failing => x.bak == Plain(pem)
       case Migrated(p) => p == pem && x.bak == Plain(pem) && x.kek.Some? && x.key == Sealed(pem, x.kek.value)
  }

  lemma {:induction false} InvAlways(x: World, pem: string, events: seq<Event>)
    requires Inv(x, pem)
    ensures Inv(Run(x, events), pem)
    decreases |events|
  {
    if events != [] { InvAlways(Step(x, events[0]), pem, events[1..]); }
  }

  /** Whatever fails, wherever it crashes and however often it starts again, the
      key is never lost; and once success is reported the key file holds it
      encrypted under the key-encryption key at hand, with the quarantine copy kept. */
  lemma MigrationNeverLosesTheKey(pem: string, kek: Option<nat>, events: seq<Event>)
    ensures
      var y := Run(World(Plain(pem), Absent, kek, Idle), events);
      Recoverable(y, pem) && (y.phase.Migrated? ==> y.kek.Some? && y.key == Sealed(pem, y.kek.value) && y.bak == Plain(pem))
  {
    InvAlways(World(Plain(pem), Absent, kek, Idle), pem, events);
  }

  /** A failed migration puts the plain key back, exactly when the quarantine copy
      can be read and the write reaches the file. */
  lemma FailureRestoresIff(x: World, pem: string, readable: bool, w: Write)
    requires Inv(x, pem) && x.phase.Failing? && x.key != Plain(pem)
    ensures
      var y := Step(x, Restore(readable, w));
      y.phase.Idle? && (y.key == Plain(pem) <==> readable && !w.NotWritten?) && y.bak == x.bak && (y.key == x.key || y.key == Plain(pem))
  {
  }

  /** What each step of a migration that meets no failure leaves behind. */
  lemma CleanMigrationSeals(x: World, pem: string, id: nat)
    requires Inv(x, pem) && x.phase.Idle? && x.key == Plain(pem)
    ensures
      var x1 := Step(x, Begin(Written));
      var x2 := Step(Step(x1, MakeKek(id)), Seal(Written, true));
      var y := Step(x2, Verify(true));
      && x1.key == Plain(pem) && x1.bak == Plain(pem)
      && y.phase == Migrated(pem) && y.kek == (if x.kek.Some? then x.kek else Some(id)) && y.key == Sealed(pem, y.kek.value)
  {
  }

  predicate Completes(x: World, events: seq<Event>) {
    Run(x, events).phase.Migrated?
  }

  /** A new migration can finish from any state a crash leaves behind, if and only
      if the key file is still or again plain; a sealed file needs none, and an
      unreadable one is refused and left to the operator. */
  lemma RestartCompletesIff(x: World, pem: string)
    requires Inv(x, pem) && x.phase.Idle?
    ensures (exists events :: Completes(x, events)) <==> x.key.Plain?
  {
    if x.key.Plain? {
      var events := [Begin(Written), MakeKek(0), Seal(Written, true), Verify(true)];
      var x1 := Step(x, events[0]);
      var x2 := Step(x1, events[1]);
      var x3 := Step(x2, events[2]);
      var x4 := Step(x3, events[3]);
      assert events[1..] == [MakeKek(0), Seal(Written, true), Verify(true)] && events[1..][1..] == [Seal(Written, true), Verify(true)];
      assert [Seal(Written, true), Verify(true)][1..] == [Verify(true)] && [Verify(true)][1..] == [];
      assert Run(x3, [Verify(true)]) == Run(x4, []);
      assert Run(x2, [Seal(Written, true), Verify(true)]) == Run(x3, [Verify(true)]);
      assert Completes(x, events);
    } else {
      forall events ensures !Completes(x, events) { StaysIdle(x, events); }
    }
  }

  lemma {:induction false} StaysIdle(x: World, events: seq<Event>)
    requires x.phase.Idle? && !x.key.Plain?
    ensures Run(x, events).phase.Idle?
    decreases |events|
  {
    if events != [] { StaysIdle(Step(x, events[0]), events[1..]); }
  }
}
