/** Saving the admin settings (admin_settings.go:864-1160, rewrite_identity.go:161-186,
    upstream_v2.go:99-120): the target of a change is written first and goes live
    only once the write has landed.

    The settings file is one document.  Its rewrite rules and upstream proxies are
    modelled as sections of their own, everything else as named features.
 */
module Settings {
  import opened Wrappers

  /** The file's rewrite fields: the rules, the flag that the file owns them, and
      the ledger of seed identities. */
  datatype Rewrite = Rewrite(rules: string, owned: bool, ledger: string)

  datatype Upstream = Upstream(document: string, legacy: string)

  datatype File = File(rewrite: Rewrite, upstream: Upstream, features: map<string, string>)

  datatype Disk = NoFile | Undecodable | Stored(file: File)

  datatype Live = Live(rewrite: string, document: string, features: map<string, string>)

  /** `degraded`: the live rewrite identities are ephemeral.  `rejected`: the stored
      upstream sections failed validation at load. */
  datatype World = World(persisted: bool, disk: Disk, live: Live, degraded: bool, rejected: Option<Upstream>)

  /** A mutation sees the current section and yields the target, or refuses.  For
      every other setting the target that is written (`features`) and the callback
      that is to make it live (`apply`) are supplied separately. */
  datatype Overrides = Overrides(
    allowed: bool, rewrite: Option<string -> Option<string>>, upstream: Option<string -> Option<string>>,
    features: map<string, string>, apply: map<string, string> -> map<string, string>)

  datatype Outcome = Done | Refused | WriteFailed

  /** The credential-free legacy list derived from a document, and the settings
      the hand-written snapshot copies from the live ones. */
  datatype Env = Env(legacyOf: string -> string, copied: set<string>)

  // ─── One save ─────────────────────────────────────────────────────────────

  function Target(mutate: Option<string -> Option<string>>, current: string): Option<string> {
    if mutate.None? then Some(current) else mutate.value(current)
  }

  function UpstreamTarget(x: World, ov: Overrides): Option<string> {
    if x.rejected.Some? then if ov.upstream.Some? then None else Some(x.rejected.value.document)
    else Target(ov.upstream, x.live.document)
  }

  /** The rewrite fields to write; none when the file cannot be carried forward. */
  function RewriteFields(x: World, ov: Overrides, target: string): Option<Rewrite> {
    if ov.rewrite.Some? || !x.degraded then Some(Rewrite(target, true, ""))
    else
      match x.disk
      case NoFile => Some(Rewrite("", false, ""))
      case Undecodable => None
      case Stored(f) => Some(f.rewrite)
  }

  function UpstreamFields(env: Env, x: World, document: string): Upstream {
    if x.rejected.Some? then x.rejected.value else Upstream(document, env.legacyOf(document))
  }

  function Publish(x: World, ov: Overrides, rewrite: string, document: string): World {
    x.(live := Live(if ov.rewrite.Some? then rewrite else x.live.rewrite,
                    if ov.upstream.Some? then document else x.live.document,
                    ov.apply(x.live.features)))
  }

  /** The settings a save writes: a copy of the live ones, overlaid by its target. */
  function Snapshot(env: Env, x: World, ov: Overrides): map<string, string> {
    (map k | k in x.live.features && k in env.copied :: x.live.features[k]) + ov.features
  }

  function Save(env: Env, x: World, ov: Overrides, w: Write): (Outcome, World) {
    var rewrite := Target(ov.rewrite, x.live.rewrite);
    var document := UpstreamTarget(x, ov);
    if !ov.allowed || rewrite.None? || document.None? then (Refused, x)
    else if !x.persisted then (Done, Publish(x, ov, rewrite.value, document.value))
    else
      var fields := RewriteFields(x, ov, rewrite.value);
      if fields.None? then (Refused, x)
      else
        var file := File(fields.value, UpstreamFields(env, x, document.value), Snapshot(env, x, ov));
        match w
        case Written => (Done, Publish(x.(disk := Stored(file)), ov, rewrite.value, document.value))
        case NotWritten => (WriteFailed, x)
        case ReplacedNotSynced => (WriteFailed, x.(disk := Stored(file)))
  }

  class AdminSettings {
    const env: Env
    const persisted: bool
    var disk: Disk
    var live: Live
    var degraded: bool
    var rejected: Option<Upstream>

    function View(): World
      reads this
    {
      World(persisted, disk, live, degraded, rejected)
    }

    /** One save, start to end under the settings lock. */
    method SaveWithOverrides(ov: Overrides, w: Write) returns (o: Outcome)
      modifies this
      ensures (o, View()) == Save(env, old(View()), ov, w)
    {
      if !ov.allowed { return Refused; }
      var rewriteTarget, rewriteApply := live.rewrite, false;
      if ov.rewrite.Some? {
        var t := ov.rewrite.value(live.rewrite);
        if t.None? { return Refused; }
        rewriteTarget, rewriteApply := t.value, true;
      }
      var document, upstreamApply := live.document, false;
      if rejected.Some? {
        if ov.upstream.Some? { return Refused; }
        document := rejected.value.document;
      }
      if ov.upstream.Some? {
        var t := ov.upstream.value(document);
        if t.None? { return Refused; }
        document, upstreamApply := t.value, true;
      }
      if persisted {
        var fields := Rewrite(rewriteTarget, true, "");
        if !rewriteApply && degraded {
          if disk.Undecodable? { return Refused; }
          fields := if disk.Stored? then disk.file.rewrite else Rewrite("", false, "");
        }
        var upstream := if rejected.Some? then rejected.value else Upstream(document, env.legacyOf(document));
        if w.NotWritten? { return WriteFailed; }
        var copy := map k | k in live.features && k in env.copied :: live.features[k];
        disk := Stored(File(fields, upstream, copy + ov.features));
        if w.ReplacedNotSynced? { return WriteFailed; }
      }
      if rewriteApply { live := live.(rewrite := rewriteTarget); }
      if upstreamApply { live := live.(document := document); }
      live := live.(features := ov.apply(live.features));
      return Done;
    }
  }

  // ─── What one save promises ───────────────────────────────────────────────

  predicate Has(m: map<string, string>, name: string, value: string) {
    name in m && m[name] == value
  }

  /** An acknowledged target is on disk, and rewrite rules and upstream document
      are live as well; any other setting is live if and only if its callback
      installs the target.  A failed or refused save leaves the live settings
      alone, and the file too, except when it was replaced before the error. */
  lemma SaveIsPersistBeforeApply(env: Env, x: World, ov: Overrides, w: Write, name: string)
    requires x.persisted
    ensures
      var (o, y) := Save(env, x, ov, w);
      && (o.Done? ==>
            && y.disk.Stored?
            && (name in ov.features ==> Has(y.disk.file.features, name, ov.features[name]))
            && (name in ov.features ==> (Has(y.live.features, name, ov.features[name]) <==> Has(ov.apply(x.live.features), name, ov.features[name])))
            && (ov.rewrite.Some? ==> ov.rewrite.value(x.live.rewrite) == Some(y.live.rewrite) && y.disk.file.rewrite == Rewrite(y.live.rewrite, true, ""))
            && (ov.upstream.Some? ==> ov.upstream.value(x.live.document) == Some(y.live.document) && y.disk.file.upstream.document == y.live.document))
      && (!o.Done? ==> y.live == x.live)
      && (!o.Done? ==> (y.disk == x.disk || (o.WriteFailed? && w.ReplacedNotSynced?)))
      && (w.NotWritten? ==> y == x)
  {
  }

  /** No precondition, mutation, rejected document or unreadable file stands in the way. */
  predicate Acceptable(x: World, ov: Overrides) {
    && ov.allowed
    && (ov.rewrite.Some? ==> ov.rewrite.value(x.live.rewrite).Some?)
    && (ov.upstream.Some? ==> x.rejected.None? && ov.upstream.value(x.live.document).Some?)
    && !(x.persisted && x.degraded && ov.rewrite.None? && x.disk.Undecodable?)
  }

  /** The outcome of a save is exact; without a settings file an acceptable change
      just goes live.  What a landed save writes of everything it does not target is
      the live state, in full: rewrite rules, upstream document and each copied
      setting, save for sections it must carry forward. */
  lemma SaveDoes(env: Env, x: World, ov: Overrides, w: Write, k: string)
    ensures
      var (o, y) := Save(env, x, ov, w);
      && (o.Refused? <==> !Acceptable(x, ov))
      && (o.Done? <==> Acceptable(x, ov) && (!x.persisted || w.Written?))
      && (o.Done? ==>
            && y.live.features == ov.apply(x.live.features)
            && Some(y.live.rewrite) == (if ov.rewrite.Some? then ov.rewrite.value(x.live.rewrite) else Some(x.live.rewrite))
            && Some(y.live.document) == (if ov.upstream.Some? then ov.upstream.value(x.live.document) else Some(x.live.document)))
      && (!x.persisted ==> y.disk == x.disk)
      && (!o.Refused? && x.persisted && !w.NotWritten? ==>
            && y.disk.Stored?
            && (ov.rewrite.None? && !x.degraded ==> y.disk.file.rewrite == Rewrite(x.live.rewrite, true, ""))
            && (ov.upstream.None? && x.rejected.None? ==> y.disk.file.upstream == Upstream(x.live.document, env.legacyOf(x.live.document)))
            && (k !in ov.features ==> (k in y.disk.file.features <==> k in x.live.features && k in env.copied))
            && (k !in ov.features && k in y.disk.file.features ==> y.disk.file.features[k] == x.live.features[k]))
  {
  }

  // ─── Runs of unrelated saves ──────────────────────────────────────────────

  /** A save of something else, or a direct change of a live feature. */
  datatype Event = Saves(ov: Overrides, w: Write) | Changes(name: string, value: string)

  predicate Unrelated(e: Event) {
    e.Saves? ==> e.ov.rewrite.None?
  }

  predicate AllUnrelated(events: seq<Event>) {
    forall i :: 0 <= i < |events| ==> Unrelated(events[i])
  }

  function Step(env: Env, x: World, e: Event): World {
    match e
    case Saves(ov, w) => Save(env, x, ov, w).1
    case Changes(name, value) => x.(live := x.live.(features := x.live.features[name := value]))
  }

  function Run(env: Env, x: World, events: seq<Event>): World
    decreases |events|
  {
    if events == [] then x else Run(env, Step(env, x, events[0]), events[1..])
  }

  /** Acknowledged rewrite rules: live, owned by the file, and in it. */
  predicate Acknowledged(x: World, rules: string) {
    x.live.rewrite == rules && x.disk.Stored? && x.disk.file.rewrite == Rewrite(rules, true, "")
  }

  datatype Section = RewriteRules(rules: string) | UpstreamDocument(document: string) | Setting(name: string, value: string)

  /** The section is live and in the file. */
  predicate Held(env: Env, x: World, sec: Section) {
    match sec
    case RewriteRules(rules) => Acknowledged(x, rules)
    case UpstreamDocument(document) =>
      x.rejected.None? && x.live.document == document && x.disk.Stored? && x.disk.file.upstream == Upstream(document, env.legacyOf(document))
    case Setting(name, value) =>
      name in env.copied && Has(x.live.features, name, value) && x.disk.Stored? && Has(x.disk.file.features, name, value)
  }

  ghost predicate ApplyLeaves(apply: map<string, string> -> map<string, string>, name: string) {
    forall m: map<string, string> :: (name in apply(m) <==> name in m) && (name in m ==> apply(m)[name] == m[name])
  }

  /** The event is about something else. */
  ghost predicate Leaves(e: Event, sec: Section) {
    match sec
    case RewriteRules(_) => e.Saves? ==> e.ov.rewrite.None?
    case UpstreamDocument(_) => e.Saves? ==> e.ov.upstream.None?
    case Setting(name, _) => if e.Saves? then name !in e.ov.features && ApplyLeaves(e.ov.apply, name) else e.name != name
  }

  lemma StepKeepsSection(env: Env, x: World, e: Event, sec: Section)
    requires Held(env, x, sec) && Leaves(e, sec)
    ensures Held(env, Step(env, x, e), sec)
  {
    if e.Saves? {
      match sec
      case RewriteRules(rules) => SaveKeepsRewrite(env, x, e.ov, e.w, rules);
      case UpstreamDocument(document) => SaveKeepsUpstream(env, x, e.ov, e.w, document);
      case Setting(name, value) => SaveKeepsSetting(env, x, e.ov, e.w, name, value);
    }
  }

  lemma SaveKeepsRewrite(env: Env, x: World, ov: Overrides, w: Write, rules: string)
    requires Acknowledged(x, rules) && ov.rewrite.None?
    ensures Acknowledged(Save(env, x, ov, w).1, rules)
  {
  }

  lemma SaveKeepsUpstream(env: Env, x: World, ov: Overrides, w: Write, document: string)
    requires Held(env, x, UpstreamDocument(document)) && ov.upstream.None?
    ensures Held(env, Save(env, x, ov, w).1, UpstreamDocument(document))
  {
  }

  lemma SaveKeepsSetting(env: Env, x: World, ov: Overrides, w: Write, name: string, value: string)
    requires Held(env, x, Setting(name, value)) && name !in ov.features && ApplyLeaves(ov.apply, name)
    ensures Held(env, Save(env, x, ov, w).1, Setting(name, value))
  {
    LiveSettingKept(env, x, ov, w, name, value);
    SaveDoes(env, x, ov, w, name);
  }

  /** No later save of anything else, succeeding or failing in any way, takes an
      acknowledged section back, in memory or on disk. */
  lemma {:induction false} AcknowledgedStays(env: Env, x: World, sec: Section, events: seq<Event>)
    requires Held(env, x, sec) && forall i :: 0 <= i < |events| ==> Leaves(events[i], sec)
    ensures Held(env, Run(env, x, events), sec)
    decreases |events|
  {
    if events != [] {
      StepKeepsSection(env, x, events[0], sec);
      AcknowledgedStays(env, Step(env, x, events[0]), sec, events[1..]);
    }
  }

  /** An acknowledged setting is live afterwards if and only if its callback
      installed the target; and it is still in the file, over every run about
      other things, if and only if no save has reached the file since, or the
      callback installed it and the snapshot copies it. */
  lemma AcknowledgedSettingSurvivesIff(env: Env, x: World, ov: Overrides, name: string, events: seq<Event>)
    requires x.persisted && Save(env, x, ov, Written).0.Done? && name in ov.features
    requires forall i :: 0 <= i < |events| ==> Leaves(events[i], Setting(name, ov.features[name]))
    ensures
      var value, y0 := ov.features[name], Save(env, x, ov, Written).1;
      var y := Run(env, y0, events);
      var installed := Has(ov.apply(x.live.features), name, value);
      && (Has(y.live.features, name, value) <==> installed)
      && y.disk.Stored?
      && (Has(y.disk.file.features, name, value) <==> NoneLands(env, y0, events) || (installed && name in env.copied))
  {
    FateOfSetting(env, Save(env, x, ov, Written).1, name, ov.features[name], events);
  }

  lemma {:induction false} FateOfSetting(env: Env, x: World, name: string, value: string, events: seq<Event>)
    requires x.persisted && x.disk.Stored? && Has(x.disk.file.features, name, value)
    requires forall i :: 0 <= i < |events| ==> Leaves(events[i], Setting(name, value))
    ensures
      var y := Run(env, x, events);
      && (Has(y.live.features, name, value) <==> Has(x.live.features, name, value))
      && y.disk.Stored?
      && (Has(y.disk.file.features, name, value) <==> NoneLands(env, x, events) || (Has(x.live.features, name, value) && name in env.copied))
    decreases |events|
  {
    if events != [] {
      var y := Step(env, x, events[0]);
      StepOnSetting(env, x, events[0], name, value);
      if Lands(env, x, events[0]) {
        FollowsLive(env, y, name, value, events[1..]);
      } else {
        FateOfSetting(env, y, name, value, events[1..]);
      }
    }
  }

  lemma StepOnSetting(env: Env, x: World, e: Event, name: string, value: string)
    requires x.persisted && Leaves(e, Setting(name, value))
    ensures var y := Step(env, x, e); y.persisted && (Has(y.live.features, name, value) <==> Has(x.live.features, name, value))
    ensures !Lands(env, x, e) ==> Step(env, x, e).disk == x.disk
    ensures Lands(env, x, e) ==> CopiesSetting(env, x, Step(env, x, e), name, value)
  {
    if e.Saves? {
      LiveSettingKept(env, x, e.ov, e.w, name, value);
      if Lands(env, x, e) { LandedCopies(env, x, e.ov, e.w, name, value); }
    }
  }

  predicate CopiesSetting(env: Env, x: World, y: World, name: string, value: string) {
    y.disk.Stored? && (Has(y.disk.file.features, name, value) <==> Has(x.live.features, name, value) && name in env.copied)
  }

  lemma LiveSettingKept(env: Env, x: World, ov: Overrides, w: Write, name: string, value: string)
    requires ApplyLeaves(ov.apply, name)
    ensures Has(Save(env, x, ov, w).1.live.features, name, value) <==> Has(x.live.features, name, value)
  {
    var m := ov.apply(x.live.features);
    var y := Save(env, x, ov, w).1;
    assert y.live.features == x.live.features || y.live.features == m;
  }

  lemma LandedCopies(env: Env, x: World, ov: Overrides, w: Write, name: string, value: string)
    requires x.persisted && name !in ov.features && Lands(env, x, Saves(ov, w))
    ensures CopiesSetting(env, x, Save(env, x, ov, w).1, name, value)
  {
    var y := Save(env, x, ov, w).1;
    assert y.disk.Stored? && y.disk.file.features == Snapshot(env, x, ov);
  }

  /** Once a save has copied it, the file follows the live setting. */
  lemma {:induction false} FollowsLive(env: Env, x: World, name: string, value: string, events: seq<Event>)
    requires x.persisted && x.disk.Stored? && (Has(x.disk.file.features, name, value) <==> Has(x.live.features, name, value) && name in env.copied)
    requires forall i :: 0 <= i < |events| ==> Leaves(events[i], Setting(name, value))
    ensures
      var y := Run(env, x, events);
      && (Has(y.live.features, name, value) <==> Has(x.live.features, name, value))
      && y.disk.Stored? && (Has(y.disk.file.features, name, value) <==> Has(x.live.features, name, value) && name in env.copied)
    decreases |events|
  {
    if events != [] {
      StepOnSetting(env, x, events[0], name, value);
      FollowsLive(env, Step(env, x, events[0]), name, value, events[1..]);
    }
  }

  /** While degraded, saves of anything else carry the file's rewrite fields
      forward verbatim and refuse to overwrite a file they cannot read; while the
      upstream document is rejected, every save carries its sections forward and
      no upstream change is accepted. */
  ghost predicate Preserved(x: World, y: World) {
    && y.degraded == x.degraded && y.rejected == x.rejected && y.persisted == x.persisted
    && (x.degraded && x.disk.Undecodable? ==> y.disk == x.disk)
    && (x.degraded && x.disk.Stored? ==> y.disk.Stored? && y.disk.file.rewrite == x.disk.file.rewrite)
    && (x.degraded && x.disk.NoFile? ==> y.disk.NoFile? || (y.disk.Stored? && y.disk.file.rewrite == Rewrite("", false, "")))
    && (x.rejected.Some? ==> y.live.document == x.live.document && (y.disk == x.disk || (y.disk.Stored? && y.disk.file.upstream == x.rejected.value)))
  }

  lemma {:induction false} RefusedSectionsAreCarried(env: Env, x: World, events: seq<Event>)
    requires AllUnrelated(events)
    ensures Preserved(x, Run(env, x, events))
    decreases |events|
  {
    if events != [] {
      assert Unrelated(events[0]);
      var y := Step(env, x, events[0]);
      assert Preserved(x, y);
      RefusedSectionsAreCarried(env, y, events[1..]);
    }
  }

  // ─── A target that was refused after it reached the file ──────────────────

  /** The next start takes the rewrite rules of a file that owns them. */
  function RewriteAtStart(x: World, seed: string): string {
    if x.disk.Stored? && (x.disk.file.rewrite.owned || x.disk.file.rewrite.rules != "") then x.disk.file.rewrite.rules else seed
  }

  /** A start takes the file's rewrite rules when the file owns them, even if they
      are none, or holds any; else the configured seed. */
  lemma StartTakesFileOrSeed(x: World, seed: string)
    ensures x.disk.Stored? && x.disk.file.rewrite.owned ==> RewriteAtStart(x, seed) == x.disk.file.rewrite.rules
    ensures !x.disk.Stored? || (!x.disk.file.rewrite.owned && x.disk.file.rewrite.rules == "") ==> RewriteAtStart(x, seed) == seed
  {
  }

  /** The save reaches the file. */
  predicate Lands(env: Env, x: World, e: Event) {
    e.Saves? && Save(env, x, e.ov, e.w) != (Refused, x) && !e.w.NotWritten?
  }

  predicate NoneLands(env: Env, x: World, events: seq<Event>)
    decreases |events|
  {
    events == [] || (!Lands(env, x, events[0]) && NoneLands(env, Step(env, x, events[0]), events[1..]))
  }

  predicate Reported(ov: Overrides, x: World, rules: string) {
    ov.allowed && ov.upstream.None? && ov.rewrite.Some? && ov.rewrite.value(x.live.rewrite) == Some(rules)
  }

  /** A rewrite target whose save reported failure still takes effect at the next
      start if and only if the file had been replaced before the error and no
      other save has reached the file since. */
  lemma UnacknowledgedTargetReturnsIff(env: Env, x: World, ov: Overrides, w: Write, rules: string, events: seq<Event>, seed: string)
    requires x.persisted && !x.degraded && AllUnrelated(events)
    requires Acknowledged(x, x.live.rewrite) && rules != x.live.rewrite && Reported(ov, x, rules) && !w.Written?
    ensures Save(env, x, ov, w).0 == WriteFailed
    ensures
      var y := Run(env, Save(env, x, ov, w).1, events);
      RewriteAtStart(y, seed) == rules <==> w.ReplacedNotSynced? && NoneLands(env, Save(env, x, ov, w).1, events)
  {
    var x1 := Save(env, x, ov, w).1;
    if w.NotWritten? {
      AcknowledgedStays(env, x, RewriteRules(x.live.rewrite), events);
    } else {
      FateOfTarget(env, x1, rules, events, seed);
    }
  }

  lemma {:induction false} FateOfTarget(env: Env, x: World, rules: string, events: seq<Event>, seed: string)
    requires x.persisted && !x.degraded && AllUnrelated(events) && rules != x.live.rewrite
    requires x.disk.Stored? && x.disk.file.rewrite == Rewrite(rules, true, "")
    ensures RewriteAtStart(Run(env, x, events), seed) == rules <==> NoneLands(env, x, events)
    decreases |events|
  {
    if events != [] {
      assert Unrelated(events[0]);
      var y := Step(env, x, events[0]);
      if Lands(env, x, events[0]) {
        assert Acknowledged(y, x.live.rewrite);
        AcknowledgedStays(env, y, RewriteRules(x.live.rewrite), events[1..]);
      } else {
        assert y.disk == x.disk && y.live.rewrite == x.live.rewrite;
        FateOfTarget(env, y, rules, events[1..], seed);
      }
    }
  }
}
