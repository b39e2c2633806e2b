/** Validation of a bulk configuration import (bulk_ref_validation.go): the
    candidate rulebase an import would install is assembled from live and
    incoming rules, and refused as a whole when any reference dangles.

    An incoming rule's names are its intent; its object-link ids are untrusted.
 */
module BulkImport {
  import opened Wrappers

  /** A category group, decryption profile or file profile. */
  datatype Object = Object(id: string, name: string, categories: seq<string>)

  datatype Rule = Rule(
    id: string, name: string, category: string,
    group: string, groupId: string, profile: string, profileId: string, fileProfile: string, fileProfileId: string,
    rest: string)

  /** String comparison and the category and legacy-profile layers.  `fold` is
      Unicode case folding, `lower` lower-casing: folding equates more names. */
  datatype Env = Env(
    lower: string -> string, fold: (string, string) -> bool, blank: string -> bool,
    categoryOk: string -> bool, legacyProfile: string -> bool)
  {
    ghost predicate FoldsLower() {
      forall a, b :: lower(a) == lower(b) ==> fold(a, b)
    }
  }

  datatype Candidate = Candidate(rules: seq<Rule>, groups: seq<Object>, profiles: seq<Object>, fileProfiles: seq<Object>)

  datatype Kind = Category | CategoryGroup | DecryptionProfile | FileProfile

  datatype Violation = Violation(owner: string, kind: Kind, name: string)

  // ─── Re-deriving links ────────────────────────────────────────────────────

  /** The first object of that name, by case folding. */
  function IdOf(env: Env, objects: seq<Object>, name: string): string {
    if objects == [] then "" else if env.fold(objects[0].name, name) then objects[0].id else IdOf(env, objects[1..], name)
  }

  predicate NamesFileProfile(r: Rule) {
    r.fileProfile != ""
  }

  /** The rule with every link id derived from its name. */
  function Canonical(env: Env, c: Candidate, r: Rule): Rule {
    r.(groupId := if r.group != "" then IdOf(env, c.groups, r.group) else "",
       profileId := if r.profile != "" then IdOf(env, c.profiles, r.profile) else "",
       fileProfileId := if NamesFileProfile(r) then IdOf(env, c.fileProfiles, r.fileProfile) else "")
  }

  /** The id is that of the first object the name folds to, "" when there is none. */
  ghost predicate Derived(env: Env, objects: seq<Object>, name: string, id: string) {
    || (id == "" && forall j :: 0 <= j < |objects| ==> !env.fold(objects[j].name, name))
    || exists i :: 0 <= i < |objects| && objects[i].id == id && env.fold(objects[i].name, name) &&
                   forall j :: 0 <= j < i ==> !env.fold(objects[j].name, name)
  }

  method FindId(env: Env, objects: seq<Object>, name: string) returns (id: string)
    ensures id == IdOf(env, objects, name) && Derived(env, objects, name, id)
  {
    var i := 0;
    while i < |objects|
      invariant 0 <= i <= |objects|
      invariant IdOf(env, objects, name) == IdOf(env, objects[i..], name)
      invariant forall j :: 0 <= j < i ==> !env.fold(objects[j].name, name)
    {
      if env.fold(objects[i].name, name) { return objects[i].id; }
      assert objects[i..][1..] == objects[i + 1..];
      i := i + 1;
    }
    return "";
  }

  method CanonicalizeCandidateRuleRefs(env: Env, c: Candidate, r: Rule) returns (out: Rule)
    ensures out == Canonical(env, c, r) && SameIntent(r, out)
    ensures if r.group == "" then out.groupId == "" else Derived(env, c.groups, r.group, out.groupId)
    ensures if r.profile == "" then out.profileId == "" else Derived(env, c.profiles, r.profile, out.profileId)
    ensures if r.fileProfile == "" then out.fileProfileId == "" else Derived(env, c.fileProfiles, r.fileProfile, out.fileProfileId)
  {
    out := r.(groupId := "", profileId := "", fileProfileId := "");
    if r.group != "" {
      var id := FindId(env, c.groups, r.group);
      out := out.(groupId := id);
    }
    if r.profile != "" {
      var id := FindId(env, c.profiles, r.profile);
      out := out.(profileId := id);
    }
    if NamesFileProfile(r) {
      var id := FindId(env, c.fileProfiles, r.fileProfile);
      out := out.(fileProfileId := id);
    }
  }

  // ─── The effective candidate ──────────────────────────────────────────────

  /** Position of the rule an incoming one replaces: by id, else by name. */
  predicate SameId(a: Rule, b: Rule) {
    b.id != "" && a.id == b.id
  }

  predicate SameName(env: Env, a: Rule, b: Rule) {
    b.name != "" && env.fold(a.name, b.name)
  }

  function Search(env: Env, rules: seq<Rule>, r: Rule, byId: bool): nat {
    if rules == [] then 0
    else if (if byId then SameId(rules[0], r) else SameName(env, rules[0], r)) then 0
    else 1 + Search(env, rules[1..], r, byId)
  }

  function Upsert(env: Env, rules: seq<Rule>, r: Rule): seq<Rule> {
    var i := Search(env, rules, r, true);
    var j := if i < |rules| then i else Search(env, rules, r, false);
    if j < |rules| then rules[j := r] else rules + [r]
  }

  function Merge(env: Env, c: Candidate, live: seq<Rule>, incoming: seq<Rule>): seq<Rule>
    decreases |incoming|
  {
    if incoming == [] then live
    else
      var front, last := incoming[..|incoming| - 1], incoming[|incoming| - 1];
      Upsert(env, Merge(env, c, live, front), Canonical(env, c, last))
  }

  function CanonicalAll(env: Env, c: Candidate, rules: seq<Rule>): (out: seq<Rule>)
    ensures |out| == |rules| && forall i :: 0 <= i < |rules| ==> out[i] == Canonical(env, c, rules[i])
  {
    if rules == [] then [] else [Canonical(env, c, rules[0])] + CanonicalAll(env, c, rules[1..])
  }

  /** Absent rules never wipe; replace installs the incoming set, merge upserts. */
  function Effective(env: Env, c: Candidate, live: seq<Rule>, incoming: seq<Rule>, replace: bool): seq<Rule> {
    if replace && incoming != [] then CanonicalAll(env, c, incoming) else Merge(env, c, live, incoming)
  }

  lemma {:induction false} SearchIs(env: Env, rules: seq<Rule>, r: Rule, byId: bool)
    ensures
      var k := Search(env, rules, r, byId);
      && k <= |rules|
      && (k < |rules| ==> if byId then SameId(rules[k], r) else SameName(env, rules[k], r))
      && (k == |rules| ==> forall j :: 0 <= j < |rules| ==> !(if byId then SameId(rules[j], r) else SameName(env, rules[j], r)))
  {
    if rules != [] {
      SearchIs(env, rules[1..], r, byId);
      assert forall j :: 0 < j < |rules| ==> rules[j] == rules[1..][j - 1];
    }
  }

  method FindMatch(env: Env, rules: seq<Rule>, r: Rule, byId: bool) returns (k: nat)
    ensures k == Search(env, rules, r, byId)
  {
    k := 0;
    while k < |rules|
      invariant 0 <= k <= |rules|
      invariant Search(env, rules, r, byId) == k + Search(env, rules[k..], r, byId)
    {
      if byId && SameId(rules[k], r) { return; }
      if !byId && SameName(env, rules[k], r) { return; }
      assert rules[k..][1..] == rules[k + 1..];
      k := k + 1;
    }
  }

  method EffectiveImportRules(env: Env, c: Candidate, live: seq<Rule>, incoming: seq<Rule>, replace: bool) returns (out: seq<Rule>)
    ensures out == Effective(env, c, live, incoming, replace)
  {
    if replace && |incoming| > 0 {
      out := [];
      for i := 0 to |incoming|
        invariant |out| == i && forall k :: 0 <= k < i ==> out[k] == Canonical(env, c, incoming[k])
      {
        var r := CanonicalizeCandidateRuleRefs(env, c, incoming[i]);
        out := out + [r];
      }
      return;
    }
    out := live;
    for i := 0 to |incoming|
      invariant out == Merge(env, c, live, incoming[..i])
    {
      var r := CanonicalizeCandidateRuleRefs(env, c, incoming[i]);
      var k := FindMatch(env, out, r, true);
      if k >= |out| { k := FindMatch(env, out, r, false); }
      assert incoming[..i + 1][..i] == incoming[..i];
      if k < |out| { out := out[k := r]; } else { out := out + [r]; }
    }
    assert incoming[..|incoming|] == incoming;
  }

  // ─── Validation ───────────────────────────────────────────────────────────

  predicate HasName(env: Env, objects: seq<Object>, name: string) {
    exists i :: 0 <= i < |objects| && env.lower(objects[i].name) == env.lower(name)
  }

  predicate HasId(objects: seq<Object>, id: string) {
    exists i :: 0 <= i < |objects| && objects[i].id == id
  }

  predicate Linked(env: Env, objects: seq<Object>, name: string, id: string) {
    HasName(env, objects, name) || (id != "" && HasId(objects, id))
  }

  /** Enforcement's own rule: an id binds for good, a name only without an id. */
  predicate FileProfileLinked(env: Env, objects: seq<Object>, r: Rule) {
    if r.fileProfileId != "" then HasId(objects, r.fileProfileId)
    else (exists i :: 0 <= i < |objects| && env.fold(objects[i].name, r.fileProfile)) || env.legacyProfile(r.fileProfile)
  }

  predicate RuleResolves(env: Env, c: Candidate, r: Rule) {
    && (r.group != "" ==> Linked(env, c.groups, r.group, r.groupId))
    && (r.profile != "" ==> Linked(env, c.profiles, r.profile, r.profileId))
    && (r.category != "Any" && r.category != "" ==> env.categoryOk(r.category))
    && (NamesFileProfile(r) ==> FileProfileLinked(env, c.fileProfiles, r))
  }

  predicate GroupResolves(env: Env, g: Object) {
    forall i :: 0 <= i < |g.categories| && !env.blank(g.categories[i]) ==> env.categoryOk(g.categories[i])
  }

  /** Every reference of the candidate resolves. */
  ghost predicate Sound(env: Env, c: Candidate) {
    && (forall i :: 0 <= i < |c.groups| ==> GroupResolves(env, c.groups[i]))
    && (forall i :: 0 <= i < |c.rules| ==> RuleResolves(env, c, c.rules[i]))
  }

  /** The violation names a reference of the rule that does not resolve. */
  predicate RuleDangles(env: Env, c: Candidate, r: Rule, v: Violation) {
    v.owner == r.name &&
    match v.kind
    case Category => v.name == r.category && !env.categoryOk(v.name)
    case CategoryGroup => v.name == r.group != "" && !Linked(env, c.groups, r.group, r.groupId)
    case DecryptionProfile => v.name == r.profile != "" && !Linked(env, c.profiles, r.profile, r.profileId)
    case FileProfile => v.name == r.fileProfile && !FileProfileLinked(env, c.fileProfiles, r)
  }

  predicate GroupDangles(env: Env, g: Object, v: Violation) {
    v.kind.Category? && v.owner == g.name && v.name in g.categories && !env.blank(v.name) && !env.categoryOk(v.name)
  }

  ghost predicate Dangles(env: Env, c: Candidate, v: Violation) {
    (exists g :: g in c.groups && GroupDangles(env, g, v)) || (exists r :: r in c.rules && RuleDangles(env, c, r, v))
  }

  /** The first unresolved member among the first `n` of a group. */
  function MemberViolation(env: Env, g: Object, n: nat): Option<Violation>
    requires n <= |g.categories|
  {
    if n == 0 then None
    else
      var v := MemberViolation(env, g, n - 1);
      var m := g.categories[n - 1];
      if v.None? && !env.blank(m) && !env.categoryOk(m) then Some(Violation(g.name, Category, m)) else v
  }

  function GroupViolation(env: Env, groups: seq<Object>, n: nat): Option<Violation>
    requires n <= |groups|
  {
    if n == 0 then None
    else
      var v := GroupViolation(env, groups, n - 1);
      if v.Some? then v else MemberViolation(env, groups[n - 1], |groups[n - 1].categories|)
  }

  /** The first edge of a rule that does not resolve, in checking order. */
  function EdgeViolation(env: Env, c: Candidate, r: Rule): Option<Violation> {
    if r.group != "" && !Linked(env, c.groups, r.group, r.groupId) then Some(Violation(r.name, CategoryGroup, r.group))
    else if r.profile != "" && !Linked(env, c.profiles, r.profile, r.profileId) then Some(Violation(r.name, DecryptionProfile, r.profile))
    else if r.category != "Any" && r.category != "" && !env.categoryOk(r.category) then Some(Violation(r.name, Category, r.category))
    else if NamesFileProfile(r) && !FileProfileLinked(env, c.fileProfiles, r) then Some(Violation(r.name, FileProfile, r.fileProfile))
    else None
  }

  function RuleViolation(env: Env, c: Candidate, n: nat): Option<Violation>
    requires n <= |c.rules|
  {
    if n == 0 then None
    else
      var v := RuleViolation(env, c, n - 1);
      if v.Some? then v else EdgeViolation(env, c, c.rules[n - 1])
  }

  /** Groups are judged before rules. */
  function FirstViolation(env: Env, c: Candidate): Option<Violation> {
    var v := GroupViolation(env, c.groups, |c.groups|);
    if v.Some? then v else RuleViolation(env, c, |c.rules|)
  }

  lemma {:induction false} MemberViolationIs(env: Env, g: Object, n: nat)
    requires n <= |g.categories|
    ensures
      var v := MemberViolation(env, g, n);
      && (v.None? <==> forall i :: 0 <= i < n && !env.blank(g.categories[i]) ==> env.categoryOk(g.categories[i]))
      && (v.Some? ==> GroupDangles(env, g, v.value))
  {
    if n > 0 { MemberViolationIs(env, g, n - 1); }
  }

  lemma {:induction false} GroupViolationIs(env: Env, groups: seq<Object>, n: nat)
    requires n <= |groups|
    ensures
      var v := GroupViolation(env, groups, n);
      && (v.None? <==> forall i :: 0 <= i < n ==> GroupResolves(env, groups[i]))
      && (v.Some? ==> exists g :: g in groups && GroupDangles(env, g, v.value))
  {
    if n > 0 {
      GroupViolationIs(env, groups, n - 1);
      MemberViolationIs(env, groups[n - 1], |groups[n - 1].categories|);
    }
  }

  lemma EdgeViolationIs(env: Env, c: Candidate, r: Rule)
    ensures EdgeViolation(env, c, r).None? <==> RuleResolves(env, c, r)
    ensures EdgeViolation(env, c, r).Some? ==> RuleDangles(env, c, r, EdgeViolation(env, c, r).value)
  {
  }

  lemma {:induction false} RuleViolationIs(env: Env, c: Candidate, n: nat)
    requires n <= |c.rules|
    ensures
      var v := RuleViolation(env, c, n);
      && (v.None? <==> forall i :: 0 <= i < n ==> RuleResolves(env, c, c.rules[i]))
      && (v.Some? ==> exists r :: r in c.rules && RuleDangles(env, c, r, v.value))
  {
    if n > 0 {
      RuleViolationIs(env, c, n - 1);
      EdgeViolationIs(env, c, c.rules[n - 1]);
    }
  }

  /** A candidate is refused exactly when a reference dangles, and the violation
      reported is one of those. */
  lemma RefusedIffDangling(env: Env, c: Candidate)
    ensures FirstViolation(env, c).None? <==> Sound(env, c)
    ensures FirstViolation(env, c).Some? ==> Dangles(env, c, FirstViolation(env, c).value)
  {
    GroupViolationIs(env, c.groups, |c.groups|);
    RuleViolationIs(env, c, |c.rules|);
  }

  /** The violation reported is the first: a group's only if every earlier group
      resolves, a rule's only if all groups and every earlier rule do. */
  lemma ViolationIsFirst(env: Env, c: Candidate)
    requires FirstViolation(env, c).Some?
    ensures
      var v := FirstViolation(env, c).value;
      || (exists i :: 0 <= i < |c.groups| && GroupDangles(env, c.groups[i], v) && forall k :: 0 <= k < i ==> GroupResolves(env, c.groups[k]))
      || ((forall k :: 0 <= k < |c.groups| ==> GroupResolves(env, c.groups[k])) &&
          exists i :: 0 <= i < |c.rules| && RuleDangles(env, c, c.rules[i], v) && forall k :: 0 <= k < i ==> RuleResolves(env, c, c.rules[k]))
  {
    GroupViolationIs(env, c.groups, |c.groups|);
    if GroupViolation(env, c.groups, |c.groups|).Some? {
      FirstGroup(env, c.groups, |c.groups|);
    } else {
      FirstRule(env, c, |c.rules|);
    }
  }

  lemma {:induction false} FirstGroup(env: Env, groups: seq<Object>, n: nat)
    requires n <= |groups| && GroupViolation(env, groups, n).Some?
    ensures exists i :: 0 <= i < n && GroupDangles(env, groups[i], GroupViolation(env, groups, n).value) && forall k :: 0 <= k < i ==> GroupResolves(env, groups[k])
  {
    if GroupViolation(env, groups, n - 1).Some? {
      FirstGroup(env, groups, n - 1);
    } else {
      GroupViolationIs(env, groups, n - 1);
      MemberViolationIs(env, groups[n - 1], |groups[n - 1].categories|);
    }
  }

  lemma {:induction false} FirstRule(env: Env, c: Candidate, n: nat)
    requires n <= |c.rules| && RuleViolation(env, c, n).Some?
    ensures exists i :: 0 <= i < n && RuleDangles(env, c, c.rules[i], RuleViolation(env, c, n).value) && forall k :: 0 <= k < i ==> RuleResolves(env, c, c.rules[k])
  {
    if RuleViolation(env, c, n - 1).Some? {
      FirstRule(env, c, n - 1);
    } else {
      RuleViolationIs(env, c, n - 1);
      EdgeViolationIs(env, c, c.rules[n - 1]);
    }
  }

  /** The lower-case names and non-empty ids of a candidate object set. */
  method IndexObjects(env: Env, objects: seq<Object>) returns (names: set<string>, ids: set<string>)
    ensures forall name :: env.lower(name) in names <==> HasName(env, objects, name)
    ensures forall id :: id in ids <==> id != "" && HasId(objects, id)
  {
    names, ids := {}, {};
    for i := 0 to |objects|
      invariant forall n :: n in names <==> exists k :: 0 <= k < i && env.lower(objects[k].name) == n
      invariant forall id :: id in ids <==> id != "" && exists k :: 0 <= k < i && objects[k].id == id
    {
      names := names + {env.lower(objects[i].name)};
      if objects[i].id != "" { ids := ids + {objects[i].id}; }
    }
  }

  method ValidateBulkGroupCategories(env: Env, c: Candidate) returns (v: Option<Violation>)
    ensures v == GroupViolation(env, c.groups, |c.groups|)
  {
    for i := 0 to |c.groups|
      invariant GroupViolation(env, c.groups, i).None?
    {
      var g := c.groups[i];
      for j := 0 to |g.categories|
        invariant MemberViolation(env, g, j).None?
      {
        if !env.blank(g.categories[j]) && !env.categoryOk(g.categories[j]) {
          v := Some(Violation(g.name, Category, g.categories[j]));
          MemberViolationStays(env, g, j + 1);
          GroupViolationStays(env, c.groups, i + 1);
          return;
        }
      }
    }
    return None;
  }

  lemma {:induction false} MemberViolationStays(env: Env, g: Object, n: nat)
    requires n <= |g.categories| && MemberViolation(env, g, n).Some?
    ensures MemberViolation(env, g, |g.categories|) == MemberViolation(env, g, n)
    decreases |g.categories| - n
  {
    if n < |g.categories| { MemberViolationStays(env, g, n + 1); }
  }

  lemma {:induction false} GroupViolationStays(env: Env, groups: seq<Object>, n: nat)
    requires n <= |groups| && GroupViolation(env, groups, n).Some?
    ensures GroupViolation(env, groups, |groups|) == GroupViolation(env, groups, n)
    decreases |groups| - n
  {
    if n < |groups| { GroupViolationStays(env, groups, n + 1); }
  }

  lemma {:induction false} RuleViolationStays(env: Env, c: Candidate, n: nat)
    requires n <= |c.rules| && RuleViolation(env, c, n).Some?
    ensures RuleViolation(env, c, |c.rules|) == RuleViolation(env, c, n)
    decreases |c.rules| - n
  {
    if n < |c.rules| { RuleViolationStays(env, c, n + 1); }
  }

  method ValidateBulkRuleRefs(env: Env, c: Candidate, r: Rule,
                              groupNames: set<string>, groupIds: set<string>, profileNames: set<string>, profileIds: set<string>)
    returns (v: Option<Violation>)
    requires env.lower(r.group) in groupNames <==> HasName(env, c.groups, r.group)
    requires r.groupId in groupIds <==> r.groupId != "" && HasId(c.groups, r.groupId)
    requires env.lower(r.profile) in profileNames <==> HasName(env, c.profiles, r.profile)
    requires r.profileId in profileIds <==> r.profileId != "" && HasId(c.profiles, r.profileId)
    ensures v == EdgeViolation(env, c, r)
    ensures v.None? <==> RuleResolves(env, c, r)
    ensures v.Some? ==> RuleDangles(env, c, r, v.value)
  {
    if r.group != "" && env.lower(r.group) !in groupNames && r.groupId !in groupIds {
      return Some(Violation(r.name, CategoryGroup, r.group));
    }
    if r.profile != "" && env.lower(r.profile) !in profileNames && r.profileId !in profileIds {
      return Some(Violation(r.name, DecryptionProfile, r.profile));
    }
    if r.category != "Any" && r.category != "" && !env.categoryOk(r.category) {
      return Some(Violation(r.name, Category, r.category));
    }
    if NamesFileProfile(r) && !FileProfileLinked(env, c.fileProfiles, r) {
      return Some(Violation(r.name, FileProfile, r.fileProfile));
    }
    return None;
  }

  method ValidateBulkRules(env: Env, c: Candidate) returns (v: Option<Violation>)
    ensures v == RuleViolation(env, c, |c.rules|)
  {
    v := None;
    var groupNames, groupIds := IndexObjects(env, c.groups);
    var profileNames, profileIds := IndexObjects(env, c.profiles);
    for i := 0 to |c.rules|
      invariant v == None && RuleViolation(env, c, i).None?
    {
      v := ValidateBulkRuleRefs(env, c, c.rules[i], groupNames, groupIds, profileNames, profileIds);
      if v.Some? {
        RuleViolationStays(env, c, i + 1);
        return;
      }
    }
  }

  method ValidateBulkCandidateRefs(env: Env, c: Candidate) returns (v: Option<Violation>)
    ensures v == FirstViolation(env, c)
    ensures v.None? <==> Sound(env, c)
    ensures v.Some? ==> Dangles(env, c, v.value)
  {
    v := ValidateBulkGroupCategories(env, c);
    if v.None? { v := ValidateBulkRules(env, c); }
    RefusedIffDangling(env, c);
  }

  // ─── The whole import ─────────────────────────────────────────────────────

  /** The last object of that lower-case name, or -1. */
  function LastNamed(env: Env, objects: seq<Object>, key: string): (j: int)
    ensures -1 <= j < |objects|
    ensures if j < 0 then forall k :: 0 <= k < |objects| ==> env.lower(objects[k].name) != key
            else env.lower(objects[j].name) == key && forall k :: j < k < |objects| ==> env.lower(objects[k].name) != key
  {
    if objects == [] then -1
    else if env.lower(objects[|objects| - 1].name) == key then |objects| - 1
    else LastNamed(env, objects[..|objects| - 1], key)
  }

  function Placed(env: Env, objects: seq<Object>, o: Object): seq<Object> {
    var j := LastNamed(env, objects, env.lower(o.name));
    if j < 0 then objects + [o] else objects[j := o]
  }

  function MergeObjects(env: Env, live: seq<Object>, incoming: seq<Object>): seq<Object>
    decreases |incoming|
  {
    if incoming == [] then live
    else Placed(env, MergeObjects(env, live, incoming[..|incoming| - 1]), incoming[|incoming| - 1])
  }

  /** Absent objects never wipe; replace installs the incoming ones, merge places
      each by name. */
  function EffectiveObjects(env: Env, live: seq<Object>, incoming: seq<Object>, replace: bool): seq<Object> {
    if incoming == [] then live else if replace then incoming else MergeObjects(env, live, incoming)
  }

  /** The names of a merge are those of both sides. */
  lemma {:induction false} MergeObjectsNames(env: Env, live: seq<Object>, incoming: seq<Object>, name: string)
    ensures HasName(env, MergeObjects(env, live, incoming), name) <==> HasName(env, live, name) || HasName(env, incoming, name)
    decreases |incoming|
  {
    if incoming != [] {
      var front, last := incoming[..|incoming| - 1], incoming[|incoming| - 1];
      MergeObjectsNames(env, live, front, name);
      PlacedNames(env, MergeObjects(env, live, front), last, name);
      NamesOfLast(env, incoming, name);
    }
  }

  lemma NamesOfLast(env: Env, objects: seq<Object>, name: string)
    requires objects != []
    ensures HasName(env, objects, name) <==> HasName(env, objects[..|objects| - 1], name) || env.lower(objects[|objects| - 1].name) == env.lower(name)
  {
    var front := objects[..|objects| - 1];
    assert forall k :: 0 <= k < |front| ==> objects[k] == front[k];
  }

  /** Live objects no incoming one names stay in place. */
  lemma {:induction false} MergeObjectsKeeps(env: Env, live: seq<Object>, incoming: seq<Object>, k: nat)
    requires k < |live| && !HasName(env, incoming, live[k].name)
    ensures var out := MergeObjects(env, live, incoming); k < |out| && out[k] == live[k]
    decreases |incoming|
  {
    if incoming != [] {
      NamesOfLast(env, incoming, live[k].name);
      MergeObjectsKeeps(env, live, incoming[..|incoming| - 1], k);
    }
  }

  lemma PlacedNames(env: Env, objects: seq<Object>, o: Object, name: string)
    ensures HasName(env, Placed(env, objects, o), name) <==> HasName(env, objects, name) || env.lower(o.name) == env.lower(name)
  {
    var out, j := Placed(env, objects, o), LastNamed(env, objects, env.lower(o.name));
    assert forall k :: 0 <= k < |objects| ==> env.lower(out[k].name) == env.lower(objects[k].name);
    assert out[if j < 0 then |objects| else j] == o;
  }

  /** mergeByName: an index from lower-case name to position, kept while merging. */
  method MergeByName(env: Env, live: seq<Object>, incoming: seq<Object>) returns (merged: seq<Object>)
    ensures merged == MergeObjects(env, live, incoming)
  {
    merged := live;
    var idx: map<string, int> := map[];
    for i := 0 to |live|
      invariant merged == live && Indexes(env, live[..i], idx)
    {
      assert live[..i + 1] == live[..i] + [live[i]];
      IndexesAppended(env, live[..i], live[i], idx);
      idx := idx[env.lower(live[i].name) := i];
    }
    assert live[..|live|] == live;
    for i := 0 to |incoming|
      invariant merged == MergeObjects(env, live, incoming[..i]) && Indexes(env, merged, idx)
    {
      var key := env.lower(incoming[i].name);
      assert incoming[..i + 1][..i] == incoming[..i];
      if key in idx {
        IndexesReplaced(env, merged, incoming[i], idx);
        merged := merged[idx[key] := incoming[i]];
      } else {
        IndexesAppended(env, merged, incoming[i], idx);
        idx := idx[key := |merged|];
        merged := merged + [incoming[i]];
      }
    }
    assert incoming[..|incoming|] == incoming;
  }

  ghost predicate Indexes(env: Env, objects: seq<Object>, idx: map<string, int>) {
    forall key :: (key in idx <==> LastNamed(env, objects, key) >= 0) && (key in idx ==> idx[key] == LastNamed(env, objects, key))
  }

  lemma IndexesAppended(env: Env, objects: seq<Object>, o: Object, idx: map<string, int>)
    requires Indexes(env, objects, idx)
    ensures Indexes(env, objects + [o], idx[env.lower(o.name) := |objects|])
  {
    assert (objects + [o])[..|objects|] == objects;
  }

  lemma IndexesReplaced(env: Env, objects: seq<Object>, o: Object, idx: map<string, int>)
    requires Indexes(env, objects, idx) && env.lower(o.name) in idx
    ensures LastNamed(env, objects, env.lower(o.name)) == idx[env.lower(o.name)] >= 0
    ensures Indexes(env, objects[idx[env.lower(o.name)] := o], idx)
  {
    var j := LastNamed(env, objects, env.lower(o.name));
    assert j == idx[env.lower(o.name)];
    forall key ensures LastNamed(env, objects[j := o], key) == LastNamed(env, objects, key) {
      SameNamesSameIndex(env, objects, objects[j := o], key);
    }
  }

  lemma SameNamesSameIndex(env: Env, a: seq<Object>, b: seq<Object>, key: string)
    requires |a| == |b| && forall k :: 0 <= k < |a| ==> env.lower(a[k].name) == env.lower(b[k].name)
    ensures LastNamed(env, a, key) == LastNamed(env, b, key)
  {
  }

  /** The candidate an import would install; file profiles are not imported. */
  function ImportCandidate(env: Env, live: Candidate, incoming: Candidate, replace: bool): Candidate {
    var c := Candidate([],
                       EffectiveObjects(env, live.groups, incoming.groups, replace),
                       EffectiveObjects(env, live.profiles, incoming.profiles, replace),
                       live.fileProfiles);
    c.(rules := Effective(env, c, live.rules, incoming.rules, replace))
  }

  method EffectiveImportSlice(env: Env, live: seq<Object>, incoming: seq<Object>, replace: bool) returns (out: seq<Object>)
    ensures out == EffectiveObjects(env, live, incoming, replace)
  {
    if |incoming| == 0 { return live; }
    if replace { return incoming; }
    out := MergeByName(env, live, incoming);
  }

  /** The verdict on a whole import: the first violation of its candidate, and none
      exactly when every reference of the candidate resolves. */
  method ValidateImportCandidateRefs(env: Env, live: Candidate, incoming: Candidate, replace: bool) returns (v: Option<Violation>)
    ensures v == FirstViolation(env, ImportCandidate(env, live, incoming, replace))
    ensures v.None? <==> Sound(env, ImportCandidate(env, live, incoming, replace))
  {
    var groups := EffectiveImportSlice(env, live.groups, incoming.groups, replace);
    var profiles := EffectiveImportSlice(env, live.profiles, incoming.profiles, replace);
    var c := Candidate([], groups, profiles, live.fileProfiles);
    var rules := EffectiveImportRules(env, c, live.rules, incoming.rules, replace);
    v := ValidateBulkCandidateRefs(env, c.(rules := rules));
  }

  // ─── Untrusted links have no influence ────────────────────────────────────

  predicate SameIntent(a: Rule, b: Rule) {
    a.(groupId := "", profileId := "", fileProfileId := "") == b.(groupId := "", profileId := "", fileProfileId := "")
  }

  predicate SameIntents(a: seq<Rule>, b: seq<Rule>) {
    |a| == |b| && forall i :: 0 <= i < |a| ==> SameIntent(a[i], b[i])
  }

  lemma SameCanonical(env: Env, c: Candidate, a: Rule, b: Rule)
    requires SameIntent(a, b)
    ensures Canonical(env, c, a) == Canonical(env, c, b)
  {
  }

  /** Changing any link ids on incoming rules changes nothing of the effective
      candidate, and with it neither the verdict nor the reported violation. */
  lemma {:induction false} LinksHaveNoInfluence(env: Env, c: Candidate, live: seq<Rule>, a: seq<Rule>, b: seq<Rule>, replace: bool)
    requires SameIntents(a, b)
    ensures Effective(env, c, live, a, replace) == Effective(env, c, live, b, replace)
    decreases |a|
  {
    forall i | 0 <= i < |a| ensures Canonical(env, c, a[i]) == Canonical(env, c, b[i]) { SameCanonical(env, c, a[i], b[i]); }
    if !(replace && a != []) && a != [] {
      var n := |a| - 1;
      LinksHaveNoInfluence(env, c, live, a[..n], b[..n], false);
    }
  }

  /** Two imports that differ in link ids only get the same verdict, and the same
      violation when it is a refusal. */
  lemma VerdictIgnoresLinks(env: Env, live: Candidate, a: Candidate, b: Candidate, replace: bool)
    requires a.groups == b.groups && a.profiles == b.profiles && SameIntents(a.rules, b.rules)
    ensures FirstViolation(env, ImportCandidate(env, live, a, replace)) == FirstViolation(env, ImportCandidate(env, live, b, replace))
    ensures Sound(env, ImportCandidate(env, live, a, replace)) <==> Sound(env, ImportCandidate(env, live, b, replace))
  {
    LinksHaveNoInfluence(env, ImportCandidate(env, live, a, replace).(rules := []), live.rules, a.rules, b.rules, replace);
  }

  /** A derived link resolves exactly when the name does: by lower-case name, or
      because the first object the name folds to has an id. */
  lemma CanonicalLinkResolves(env: Env, objects: seq<Object>, name: string)
    requires env.FoldsLower()
    ensures Linked(env, objects, name, IdOf(env, objects, name)) <==>
              HasName(env, objects, name) || IdOf(env, objects, name) != ""
    ensures Linked(env, objects, name, IdOf(env, objects, name)) ==>
              exists i :: 0 <= i < |objects| && env.fold(objects[i].name, name)
  {
    IdOfIs(env, objects, name);
    if HasName(env, objects, name) {
      var i :| 0 <= i < |objects| && env.lower(objects[i].name) == env.lower(name);
      assert env.fold(objects[i].name, name);
    }
  }

  lemma {:induction false} IdOfIs(env: Env, objects: seq<Object>, name: string)
    ensures IdOf(env, objects, name) != "" ==>
              HasId(objects, IdOf(env, objects, name)) && exists i :: 0 <= i < |objects| && env.fold(objects[i].name, name)
  {
    if objects != [] {
      IdOfIs(env, objects[1..], name);
      assert forall j :: 0 < j < |objects| ==> objects[j] == objects[1..][j - 1];
    }
  }

  /** A name nothing folds to refuses the import, whatever id accompanies it. */
  lemma UnknownNameIsRefused(env: Env, c: Candidate, r: Rule)
    requires env.FoldsLower() && Canonical(env, c, r) in c.rules
    requires
      || (r.group != "" && forall i :: 0 <= i < |c.groups| ==> !env.fold(c.groups[i].name, r.group))
      || (r.profile != "" && forall i :: 0 <= i < |c.profiles| ==> !env.fold(c.profiles[i].name, r.profile))
    ensures !Sound(env, c)
  {
    if r.group != "" { CanonicalLinkResolves(env, c.groups, r.group); }
    if r.profile != "" { CanonicalLinkResolves(env, c.profiles, r.profile); }
    assert !RuleResolves(env, c, Canonical(env, c, r));
  }

  /** A file-profile id binds for good: one that is gone refuses the candidate even
      when a profile of the rule's name is there. */
  lemma GoneFileProfileIsRefused(env: Env, c: Candidate, r: Rule)
    requires r in c.rules && r.fileProfile != "" && r.fileProfileId != "" && forall i :: 0 <= i < |c.fileProfiles| ==> c.fileProfiles[i].id != r.fileProfileId
    ensures !Sound(env, c) && FirstViolation(env, c).Some?
  {
    assert !RuleResolves(env, c, r);
    RefusedIffDangling(env, c);
  }

  // ─── Untouched live rules ─────────────────────────────────────────────────

  predicate Touches(env: Env, live: Rule, incoming: Rule) {
    SameId(live, incoming) || SameName(env, live, incoming)
  }

  ghost predicate Untouched(env: Env, live: Rule, incoming: seq<Rule>) {
    forall i :: 0 <= i < |incoming| ==> !Touches(env, live, incoming[i])
  }

  /** `out` keeps every untouched live rule at its place. */
  ghost predicate KeepsPlaces(env: Env, live: seq<Rule>, incoming: seq<Rule>, out: seq<Rule>) {
    |live| <= |out| && forall j :: 0 <= j < |live| && Untouched(env, live[j], incoming) ==> out[j] == live[j]
  }

  ghost predicate FromIncoming(env: Env, c: Candidate, r: Rule, incoming: seq<Rule>) {
    exists i :: 0 <= i < |incoming| && r == Canonical(env, c, incoming[i])
  }

  /** Everything in `out` is a live rule at its place or a canonical incoming one. */
  ghost predicate NothingElse(env: Env, c: Candidate, live: seq<Rule>, incoming: seq<Rule>, out: seq<Rule>) {
    forall j :: 0 <= j < |out| ==> (j < |live| && out[j] == live[j]) || FromIncoming(env, c, out[j], incoming)
  }

  lemma UpsertKeepsPlaces(env: Env, c: Candidate, live: seq<Rule>, front: seq<Rule>, last: Rule, before: seq<Rule>)
    requires KeepsPlaces(env, live, front, before)
    ensures KeepsPlaces(env, live, front + [last], Upsert(env, before, Canonical(env, c, last)))
  {
    var r := Canonical(env, c, last);
    SearchIs(env, before, r, true);
    SearchIs(env, before, r, false);
    var incoming := front + [last];
    forall j | 0 <= j < |live| && Untouched(env, live[j], incoming)
      ensures Upsert(env, before, r)[j] == live[j]
    {
      assert !Touches(env, live[j], incoming[|front|]);
      forall i | 0 <= i < |front| ensures !Touches(env, live[j], front[i]) { assert front[i] == incoming[i]; }
    }
  }

  lemma UpsertAddsNothingElse(env: Env, c: Candidate, live: seq<Rule>, front: seq<Rule>, last: Rule, before: seq<Rule>)
    requires NothingElse(env, c, live, front, before)
    ensures NothingElse(env, c, live, front + [last], Upsert(env, before, Canonical(env, c, last)))
    ensures |before| <= |Upsert(env, before, Canonical(env, c, last))| <= |before| + 1
  {
    var out, incoming := Upsert(env, before, Canonical(env, c, last)), front + [last];
    forall j | 0 <= j < |out| ensures (j < |live| && out[j] == live[j]) || FromIncoming(env, c, out[j], incoming) {
      if out[j] == Canonical(env, c, last) {
        assert incoming[|front|] == last;
      } else if FromIncoming(env, c, out[j], front) {
        var i :| 0 <= i < |front| && out[j] == Canonical(env, c, front[i]);
        assert incoming[i] == front[i];
      }
    }
  }

  /** An upsert puts the rule in the place of the first of its id, else the first of
      its name, else at the end; nothing else moves. */
  lemma UpsertDoes(env: Env, rules: seq<Rule>, r: Rule)
    ensures
      var out := Upsert(env, rules, r);
      if exists k :: 0 <= k < |rules| && Touches(env, rules[k], r) then
        exists i :: 0 <= i < |rules| && out == rules[i := r] && Touches(env, rules[i], r) &&
                    (!SameId(rules[i], r) ==> forall k :: 0 <= k < |rules| ==> !SameId(rules[k], r))
      else out == rules + [r]
  {
    SearchIs(env, rules, r, true);
    SearchIs(env, rules, r, false);
    var i := Search(env, rules, r, true);
    var j := if i < |rules| then i else Search(env, rules, r, false);
    if j < |rules| { assert Touches(env, rules[j], r) && Upsert(env, rules, r) == rules[j := r]; }
  }

  lemma UpsertHas(env: Env, rules: seq<Rule>, r: Rule)
    ensures r in Upsert(env, rules, r)
  {
    SearchIs(env, rules, r, true);
    SearchIs(env, rules, r, false);
    var i := Search(env, rules, r, true);
    var j := if i < |rules| then i else Search(env, rules, r, false);
    assert Upsert(env, rules, r)[if j < |rules| then j else |rules|] == r;
  }

  lemma UpsertKeeps(env: Env, rules: seq<Rule>, r: Rule, a: Rule)
    requires a in rules && !Touches(env, a, r)
    ensures a in Upsert(env, rules, r)
  {
    UpsertDoes(env, rules, r);
    var k :| 0 <= k < |rules| && rules[k] == a;
    assert Upsert(env, rules, r)[k] == a;
  }

  /** Every incoming rule that no later one names takes effect: its canonical form
      is in the merged list. */
  lemma {:induction false} IncomingRulesLand(env: Env, c: Candidate, live: seq<Rule>, incoming: seq<Rule>, i: nat)
    requires i < |incoming| && forall j :: i < j < |incoming| ==> !Touches(env, incoming[i], incoming[j])
    ensures Canonical(env, c, incoming[i]) in Merge(env, c, live, incoming)
    decreases |incoming|
  {
    var n := |incoming| - 1;
    var front, last := incoming[..n], incoming[n];
    var before, r := Merge(env, c, live, front), Canonical(env, c, last);
    if i == n {
      UpsertHas(env, before, r);
    } else {
      assert front[i] == incoming[i];
      forall j | i < j < |front| ensures !Touches(env, front[i], front[j]) { assert !Touches(env, incoming[i], incoming[j]); }
      IncomingRulesLand(env, c, live, front, i);
      assert !Touches(env, incoming[i], last);
      UpsertKeeps(env, before, r, Canonical(env, c, incoming[i]));
    }
  }

  /** A merge keeps every live rule no incoming rule names, with its links, at its
      place; anything else in the result is a canonical incoming rule. */
  lemma {:induction false} MergeKeepsUntouched(env: Env, c: Candidate, live: seq<Rule>, incoming: seq<Rule>)
    ensures
      var out := Merge(env, c, live, incoming);
      KeepsPlaces(env, live, incoming, out) && NothingElse(env, c, live, incoming, out) && |out| <= |live| + |incoming|
    decreases |incoming|
  {
    if incoming != [] {
      var front, last := incoming[..|incoming| - 1], incoming[|incoming| - 1];
      assert incoming == front + [last];
      MergeKeepsUntouched(env, c, live, front);
      UpsertKeepsPlaces(env, c, live, front, last, Merge(env, c, live, front));
      UpsertAddsNothingElse(env, c, live, front, last, Merge(env, c, live, front));
    }
  }
}
