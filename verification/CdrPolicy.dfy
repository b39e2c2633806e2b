/** The CDR policy store (cdrpolicy.go): in-place sort, evaluation, and what every
    run of changes, failing writes and loads keeps.

    Names are compared after trimming; `ident` stands for that trimming.  `hit`
    stands for the source, schedule and destination matchers of one request.
 */
module CdrPolicy {
  import opened Wrappers
  import opened TwoCopies

  datatype Rule = Rule(name: string, priority: int, enabled: bool, profile: string, mode: string)

  // ─── The in-place sort ────────────────────────────────────────────────────

  /** Insert behind every rule of at least this priority, from the back. */
  function Insert(s: seq<Rule>, r: Rule): seq<Rule> {
    if s == [] || s[|s| - 1].priority >= r.priority then s + [r]
    else Insert(s[..|s| - 1], r) + [s[|s| - 1]]
  }

  function Sorted(s: seq<Rule>): seq<Rule> {
    if s == [] then [] else Insert(Sorted(s[..|s| - 1]), s[|s| - 1])
  }

  predicate Descending(s: seq<Rule>) {
    forall i, j :: 0 <= i < j < |s| ==> s[i].priority >= s[j].priority
  }

  lemma {:induction false} InsertAt(s: seq<Rule>, r: Rule, j: nat)
    requires j <= |s| && (j > 0 ==> s[j - 1].priority >= r.priority) && forall k :: j <= k < |s| ==> s[k].priority < r.priority
    ensures Insert(s, r) == s[..j] + [r] + s[j..]
    decreases |s|
  {
    if j < |s| {
      var front, last := s[..|s| - 1], s[|s| - 1];
      InsertAt(front, r, j);
      assert front[..j] == s[..j] && front[j..] + [last] == s[j..];
      assert Insert(s, r) == Insert(front, r) + [last];
      assert (front[..j] + [r] + front[j..]) + [last] == front[..j] + [r] + (front[j..] + [last]);
    } else {
      assert s[..j] == s && s[j..] == [];
    }
  }

  lemma {:induction false} InsertPermutes(s: seq<Rule>, r: Rule)
    ensures multiset(Insert(s, r)) == multiset(s) + multiset{r} && |Insert(s, r)| == |s| + 1
    decreases |s|
  {
    if s != [] && s[|s| - 1].priority < r.priority {
      assert s == s[..|s| - 1] + [s[|s| - 1]];
      InsertPermutes(s[..|s| - 1], r);
    }
  }

  lemma {:induction false} InsertDescends(s: seq<Rule>, r: Rule)
    requires Descending(s)
    ensures Descending(Insert(s, r))
    decreases |s|
  {
    if s != [] && s[|s| - 1].priority < r.priority {
      var front, last := s[..|s| - 1], s[|s| - 1];
      InsertDescends(front, r);
      InsertPermutes(front, r);
      var t := Insert(front, r);
      forall k | 0 <= k < |t| ensures t[k].priority >= last.priority {
        assert t[k] in multiset(t);
        assert t[k] == r || t[k] in front;
      }
    }
  }

  /** A permutation, in descending order of priority. */
  lemma {:induction false} SortedDescends(s: seq<Rule>)
    ensures Descending(Sorted(s)) && multiset(Sorted(s)) == multiset(s) && |Sorted(s)| == |s|
    decreases |s|
  {
    if s != [] {
      var front, last := s[..|s| - 1], s[|s| - 1];
      assert s == front + [last];
      SortedDescends(front);
      InsertDescends(Sorted(front), last);
      InsertPermutes(Sorted(front), last);
    }
  }

  function OfPriority(s: seq<Rule>, p: int): seq<Rule> {
    if s == [] then []
    else OfPriority(s[..|s| - 1], p) + if s[|s| - 1].priority == p then [s[|s| - 1]] else []
  }

  lemma {:induction false} InsertIsStable(s: seq<Rule>, r: Rule, p: int)
    requires Descending(s)
    ensures OfPriority(Insert(s, r), p) == OfPriority(s, p) + if r.priority == p then [r] else []
    decreases |s|
  {
    if s == [] || s[|s| - 1].priority >= r.priority {
      assert (s + [r])[..|s|] == s;
    } else {
      var front, last := s[..|s| - 1], s[|s| - 1];
      InsertIsStable(front, r, p);
      var t := Insert(front, r) + [last];
      assert t[..|t| - 1] == Insert(front, r) && t[|t| - 1] == last;
      assert OfPriority(t, p) == OfPriority(Insert(front, r), p) + if last.priority == p then [last] else [];
      if r.priority == p { NoneLower(s, r.priority); }
    }
  }

  /** Nothing of a priority above the last one's bound follows it. */
  lemma NoneLower(s: seq<Rule>, p: int)
    requires s != [] && s[|s| - 1].priority < p
    ensures OfPriority(s, p) == OfPriority(s[..|s| - 1], p)
  {
  }

  /** Rules of equal priority keep their order. */
  lemma {:induction false} SortedIsStable(s: seq<Rule>, p: int)
    ensures OfPriority(Sorted(s), p) == OfPriority(s, p)
    decreases |s|
  {
    if s != [] {
      SortedIsStable(s[..|s| - 1], p);
      SortedDescends(s[..|s| - 1]);
      InsertIsStable(Sorted(s[..|s| - 1]), s[|s| - 1], p);
    }
  }

  /** The inner loop: swap element `i` down to its place in the sorted prefix. */
  method Sink(rules: array<Rule>, i: nat)
    requires i < rules.Length
    modifies rules
    ensures rules[..i + 1] == Insert(old(rules[..i]), old(rules[i])) && rules[i + 1..] == old(rules[i + 1..])
  {
    var j := i;
    ghost var prefix, r := rules[..i], rules[i];
    while j > 0 && rules[j - 1].priority < rules[j].priority
      invariant 0 <= j <= i && rules[j] == r
      invariant forall k :: 0 <= k < j ==> rules[k] == prefix[k]
      invariant forall k :: j < k <= i ==> rules[k] == prefix[k - 1]
      invariant forall k :: i < k < rules.Length ==> rules[k] == old(rules[k])
      invariant forall k :: j <= k < i ==> prefix[k].priority < r.priority
    {
      rules[j - 1], rules[j] := rules[j], rules[j - 1];
      j := j - 1;
    }
    InsertAt(prefix, r, j);
    assert rules[..i + 1] == prefix[..j] + [r] + prefix[j..];
  }

  method SortRulesByPriority(rules: array<Rule>)
    modifies rules
    ensures rules[..] == Sorted(old(rules[..]))
  {
    var i := 0;
    ghost var input := rules[..];
    while i < rules.Length
      invariant 0 <= i <= rules.Length
      invariant rules[..i] == Sorted(input[..i]) && rules[i..] == input[i..]
    {
      assert rules[i] == rules[i..][0] == input[i] && rules[i + 1..] == rules[i..][1..] == input[i + 1..];
      Sink(rules, i);
      assert input[..i + 1][..i] == input[..i] && input[..i + 1][i] == input[i];
      i := i + 1;
    }
    assert input[..rules.Length] == input && rules[..rules.Length] == rules[..];
  }

  method SortedCopy(list: seq<Rule>) returns (out: seq<Rule>)
    ensures out == Sorted(list)
  {
    var a := new Rule[|list|](k requires 0 <= k < |list| => list[k]);
    assert a[..] == list;
    SortRulesByPriority(a);
    out := a[..];
  }

  // ─── Evaluation ───────────────────────────────────────────────────────────

  predicate Applies(r: Rule, hit: Rule -> bool) {
    r.enabled && hit(r)
  }

  /** Rule `i` applies, with the highest priority, earliest on a tie. */
  ghost predicate Best(s: seq<Rule>, hit: Rule -> bool, i: nat) {
    && i < |s| && Applies(s[i], hit)
    && forall j :: 0 <= j < |s| && Applies(s[j], hit) ==> s[i].priority > s[j].priority || (s[i].priority == s[j].priority && i <= j)
  }

  function First(s: seq<Rule>, hit: Rule -> bool): (i: nat)
    ensures i <= |s| && (i < |s| ==> Applies(s[i], hit)) && forall j :: 0 <= j < i ==> !Applies(s[j], hit)
  {
    if s == [] || Applies(s[0], hit) then 0 else 1 + First(s[1..], hit)
  }

  method Evaluate(s: seq<Rule>, hit: Rule -> bool) returns (i: nat)
    ensures i == First(s, hit)
  {
    i := 0;
    while i < |s|
      invariant 0 <= i <= |s|
      invariant First(s, hit) == i + First(s[i..], hit)
    {
      if s[i].enabled && hit(s[i]) { return; }
      assert s[i..][1..] == s[i + 1..];
      i := i + 1;
    }
  }

  ghost predicate PicksBest(s: seq<Rule>, hit: Rule -> bool) {
    First(s, hit) < |s| ==> Best(s, hit, First(s, hit))
  }

  /** No enabled rule stands before an enabled one of higher priority, unless an
      equal rule stands before both. */
  ghost predicate EnabledDescending(s: seq<Rule>) {
    forall i, j :: 0 <= i < j < |s| && s[i].enabled && s[j].enabled && s[i].priority < s[j].priority ==> s[j] in s[..i]
  }

  lemma DescendingIsEnough(s: seq<Rule>)
    requires Descending(s)
    ensures EnabledDescending(s)
  {
  }

  /** Taking the first match is taking the best one for every request, if and only
      if the enabled rules stand in descending order, up to repeated rules.  Add and
      Replace establish it; Load keeps the file's order as it is. */
  lemma FirstIsBestIffDescending(s: seq<Rule>)
    ensures (forall hit: Rule -> bool :: PicksBest(s, hit)) <==> EnabledDescending(s)
  {
    if EnabledDescending(s) {
      forall hit: Rule -> bool ensures PicksBest(s, hit) {
        assert forall k :: 0 <= k < First(s, hit) ==> !Applies(s[k], hit);
      }
    } else {
      var i, j :| 0 <= i < j < |s| && s[i].enabled && s[j].enabled && s[i].priority < s[j].priority && s[j] !in s[..i];
      LowerComesFirst(s, i, j);
    }
  }

  lemma LowerComesFirst(s: seq<Rule>, i: nat, j: nat)
    requires i < j < |s| && s[i].enabled && s[j].enabled && s[i].priority < s[j].priority && s[j] !in s[..i]
    ensures exists hit: Rule -> bool :: !PicksBest(s, hit)
  {
    var a, b := s[i], s[j];
    var hit := r => r == a || r == b;
    var f := First(s, hit);
    assert Applies(s[i], hit) && f <= i;
    forall k | 0 <= k < i ensures s[k] != b { assert s[..i][k] == s[k]; }
    assert s[f] == a;
    assert Applies(s[j], hit) && !Best(s, hit, f);
    assert !PicksBest(s, hit);
  }

  // ─── The store ────────────────────────────────────────────────────────────

  predicate NamesOk(ident: string -> string, s: seq<Rule>) {
    && (forall i :: 0 <= i < |s| ==> ident(s[i].name) != "")
    && (forall i, j :: 0 <= i < j < |s| ==> ident(s[i].name) != ident(s[j].name))
  }

  lemma PermutationKeepsNames(ident: string -> string, s: seq<Rule>, t: seq<Rule>)
    requires multiset(s) == multiset(t) && NamesOk(ident, s)
    ensures NamesOk(ident, t)
  {
    forall i | 0 <= i < |t| ensures ident(t[i].name) != "" { assert t[i] in multiset(s); }
    forall i, j | 0 <= i < j < |t| ensures ident(t[i].name) != ident(t[j].name) {
      if ident(t[i].name) == ident(t[j].name) {
        assert t[i] in multiset(s) && t[j] in multiset(s);
        assert t == t[..i] + [t[i]] + t[i + 1..j] + [t[j]] + t[j + 1..];
        assert multiset(t)[t[i]] >= 2;
        TwiceIsRepeated(s, t[i]);
        assert false;
      }
    }
  }

  lemma AppendedNames(ident: string -> string, s: seq<Rule>, r: Rule)
    requires NamesOk(ident, s) && ident(r.name) != "" && forall i :: 0 <= i < |s| ==> ident(s[i].name) != ident(r.name)
    ensures NamesOk(ident, s + [r])
  {
  }

  lemma CutNames(ident: string -> string, s: seq<Rule>, at: nat)
    requires NamesOk(ident, s) && at < |s|
    ensures NamesOk(ident, s[..at] + s[at + 1..])
  {
    var t := s[..at] + s[at + 1..];
    assert forall k :: 0 <= k < |t| ==> t[k] == if k < at then s[k] else s[k + 1];
  }

  lemma SortedNames(ident: string -> string, s: seq<Rule>)
    ensures Descending(Sorted(s)) && (NamesOk(ident, s) ==> NamesOk(ident, Sorted(s)))
  {
    SortedDescends(s);
    if NamesOk(ident, s) { PermutationKeepsNames(ident, s, Sorted(s)); }
  }

  lemma {:induction false} TwiceIsRepeated(s: seq<Rule>, r: Rule)
    ensures multiset(s)[r] >= 2 ==> exists i, j :: 0 <= i < j < |s| && s[i] == r && s[j] == r
    ensures multiset(s)[r] >= 1 ==> r in s
  {
    if s != [] {
      assert s == [s[0]] + s[1..];
      TwiceIsRepeated(s[1..], r);
      assert forall k :: 0 < k < |s| ==> s[k] == s[1..][k - 1];
    }
  }

  datatype PolicyError = InvalidMode | EmptyName | DuplicateName | Degraded | NotDegraded | Ambiguous | NoSuchRule | SaveFailed

  datatype Outcome = Done | Failed(error: PolicyError)

  datatype Env = Env(ident: string -> string, validMode: string -> bool)

  datatype File = Missing | Unparsable | Holds(rules: seq<Rule>)

  /** `bound` once a path is set, and saves reach the file; `checked` once `ok`, the
      integrity verdict, was computed. */
  datatype Store = Store(rules: seq<Rule>, file: File, bound: bool, checked: bool, ok: bool, epoch: nat)

  datatype Request = AddRule(r: Rule) | RemoveName(name: string) | RemovePosition(at: int, expectedName: string)

  datatype Edit = Change(next: seq<Rule>, ok: bool) | Refuse(error: PolicyError)

  function Named(env: Env, s: seq<Rule>, name: string): (i: nat)
    ensures i <= |s| && (i < |s| ==> env.ident(s[i].name) == env.ident(name))
    ensures forall j :: 0 <= j < i ==> env.ident(s[j].name) != env.ident(name)
  {
    if s == [] || env.ident(s[0].name) == env.ident(name) then 0 else 1 + Named(env, s[1..], name)
  }

  datatype Result = At(index: nat) | Bad(error: PolicyError)

  predicate SameName(env: Env, r: Rule, name: string) {
    env.ident(r.name) == env.ident(name)
  }

  predicate OnlyAt(env: Env, s: seq<Rule>, name: string, i: nat) {
    i < |s| && forall k :: 0 <= k < |s| ==> (SameName(env, s[k], name) <==> k == i)
  }

  /** The index of a name that exactly one rule carries. */
  function Position(env: Env, s: seq<Rule>, name: string): (r: Result)
    ensures r.At? ==> r.index < |s|
  {
    var i := Named(env, s, name);
    if i == |s| then Bad(NoSuchRule)
    else if Named(env, s[i + 1..], name) < |s[i + 1..]| then Bad(Ambiguous)
    else At(i)
  }

  function Cut(s: seq<Rule>, i: nat): seq<Rule>
    requires i < |s|
  {
    s[..i] + s[i + 1..]
  }

  function Removal(env: Env, s: Store, i: nat): Edit
    requires i < |s.rules|
  {
    Change(Cut(s.rules, i), if s.checked then NamesOk(env.ident, Cut(s.rules, i)) else s.ok)
  }

  /** The list a change would save, or why it is refused. */
  function Plan(env: Env, s: Store, q: Request): Edit {
    match q
    case AddRule(r) =>
      if !env.validMode(r.mode) then Refuse(InvalidMode)
      else if env.ident(r.name) == "" then Refuse(EmptyName)
      else if s.checked && !s.ok then Refuse(Degraded)
      else if Named(env, s.rules, r.name) < |s.rules| then Refuse(DuplicateName)
      else Change(Sorted(s.rules + [r]), s.ok)
    case RemoveName(name) =>
      if env.ident(name) == "" then Refuse(NoSuchRule)
      else (match Position(env, s.rules, name) case Bad(e) => Refuse(e) case At(i) => Removal(env, s, i))
    case RemovePosition(at, expectedName) =>
      if !s.checked || s.ok then Refuse(NotDegraded)
      else if !(0 <= at < |s.rules|) || s.rules[at].name != expectedName then Refuse(NoSuchRule)
      else Removal(env, s, at)
  }

  /** How a save ends: without a path nothing is written, and nothing fails. */
  function Saved(s: Store, w: Write): Write {
    if s.bound then w else Written
  }

  function FileAfter(s: Store, w: Write, next: seq<Rule>): File {
    if s.bound && !w.NotWritten? then Holds(next) else s.file
  }

  /** Rules, verdict and epoch change together, on a clean save only. */
  function Commit(s: Store, next: seq<Rule>, ok: bool, w: Write): Store {
    if Saved(s, w).Written? then s.(rules := next, file := FileAfter(s, w, next), ok := ok, epoch := s.epoch + 1)
    else s.(file := FileAfter(s, w, next))
  }

  function Call(env: Env, s: Store, q: Request, w: Write): Store {
    match Plan(env, s, q) case Refuse(_) => s case Change(next, ok) => Commit(s, next, ok, w)
  }

  function Answer(env: Env, s: Store, q: Request, w: Write): Outcome {
    match Plan(env, s, q) case Refuse(e) => Failed(e) case Change(_, _) => if Saved(s, w).Written? then Done else Failed(SaveFailed)
  }

  /** The first bad name of a list, in order. */
  function NameError(env: Env, s: seq<Rule>): Option<PolicyError> {
    if s == [] then None
    else
      var front, id := s[..|s| - 1], env.ident(s[|s| - 1].name);
      var e := NameError(env, front);
      if e.Some? then e
      else if id == "" then Some(EmptyName)
      else if exists k :: 0 <= k < |front| && env.ident(front[k].name) == id then Some(DuplicateName)
      else None
  }

  lemma {:induction false} NameErrorIff(env: Env, s: seq<Rule>)
    ensures NameError(env, s).None? <==> NamesOk(env.ident, s)
    decreases |s|
  {
    if s != [] { NameErrorIff(env, s[..|s| - 1]); }
  }

  lemma {:induction false} NameErrorStays(env: Env, s: seq<Rule>, n: nat)
    requires n <= |s| && NameError(env, s[..n]).Some?
    ensures NameError(env, s) == NameError(env, s[..n])
    decreases |s|
  {
    if n < |s| {
      assert s[..|s| - 1][..n] == s[..n];
      NameErrorStays(env, s[..|s| - 1], n);
    } else {
      assert s[..n] == s;
    }
  }

  function ListError(env: Env, list: seq<Rule>): Option<PolicyError> {
    if exists i :: 0 <= i < |list| && !env.validMode(list[i].mode) then Some(InvalidMode) else NameError(env, list)
  }

  predicate Replaceable(env: Env, list: seq<Rule>) {
    NamesOk(env.ident, list) && forall i :: 0 <= i < |list| ==> env.validMode(list[i].mode)
  }

  datatype Event = Calls(q: Request, w: Write) | Replaces(list: seq<Rule>) | Saves(w: Write) | Loads(readable: bool)

  function Step(env: Env, s: Store, e: Event): Store {
    match e
    case Calls(q, w) => Call(env, s, q, w)
    case Replaces(list) =>
      if Replaceable(env, list) then s.(rules := Sorted(list), checked := true, ok := true, epoch := s.epoch + 1) else s
    case Saves(w) => s.(file := FileAfter(s, w, s.rules))
    case Loads(readable) =>
      var y := s.(bound := true);
      if !readable || !s.file.Holds? then y
      else y.(rules := s.file.rules, checked := true, ok := NamesOk(env.ident, s.file.rules), epoch := s.epoch + 1)
  }

  function Trace(env: Env, s: Store, events: seq<Event>): Store
    decreases |events|
  {
    if events == [] then s else Trace(env, Step(env, s, events[0]), events[1..])
  }

  // ─── Over every run ───────────────────────────────────────────────────────

  /** The recorded verdict is true; a store never loaded has good names. */
  predicate Valid(env: Env, s: Store) {
    if s.checked then s.ok <==> NamesOk(env.ident, s.rules) else NamesOk(env.ident, s.rules)
  }

  /** Both copies are in evaluation order. */
  predicate InOrder(s: Store) {
    Descending(s.rules) && (s.file.Holds? ==> Descending(s.file.rules))
  }

  lemma CutDescends(s: seq<Rule>, i: nat)
    requires Descending(s) && i < |s|
    ensures Descending(Cut(s, i))
  {
    var t := s[..i] + s[i + 1..];
    assert forall k :: 0 <= k < |t| ==> t[k] == if k < i then s[k] else s[k + 1];
  }

  lemma PlanKeeps(env: Env, s: Store, q: Request)
    requires Valid(env, s) && Plan(env, s, q).Change?
    ensures var Change(next, ok) := Plan(env, s, q);
      && Valid(env, s.(rules := next, ok := ok))
      && (Descending(s.rules) ==> Descending(next))
      && (q.AddRule? ==> Descending(next) && NamesOk(env.ident, next))
  {
    match q {
      case AddRule(r) =>
        AppendedNames(env.ident, s.rules, r);
        SortedNames(env.ident, s.rules + [r]);
      case RemoveName(name) =>
        var i := Position(env, s.rules, name).index;
        if !s.checked { CutNames(env.ident, s.rules, i); }
        if Descending(s.rules) { CutDescends(s.rules, i); }
      case RemovePosition(at, _) =>
        if Descending(s.rules) { CutDescends(s.rules, at); }
    }
  }

  /** How often a name is carried. */
  function Carried(env: Env, s: seq<Rule>, name: string): nat {
    if s == [] then 0 else Carried(env, s[..|s| - 1], name) + if SameName(env, s[|s| - 1], name) then 1 else 0
  }

  lemma {:induction false} CarriedIs(env: Env, s: seq<Rule>, name: string)
    ensures Carried(env, s, name) == 0 <==> forall k :: 0 <= k < |s| ==> !SameName(env, s[k], name)
    ensures Carried(env, s, name) == 1 <==> exists i: nat :: OnlyAt(env, s, name, i)
    decreases |s|
  {
    if s != [] {
      var front, n := s[..|s| - 1], |s| - 1;
      CarriedIs(env, front, name);
      assert forall k :: 0 <= k < n ==> s[k] == front[k];
      if SameName(env, s[n], name) {
        if Carried(env, front, name) == 0 { assert OnlyAt(env, s, name, n); }
        if i: nat :| OnlyAt(env, s, name, i) { assert forall k :: 0 <= k < n ==> (SameName(env, s[k], name) <==> k == i); }
      } else {
        if i: nat :| OnlyAt(env, front, name, i) { assert OnlyAt(env, s, name, i); }
        if i: nat :| OnlyAt(env, s, name, i) { assert i < n && OnlyAt(env, front, name, i); }
      }
    }
  }

  lemma PositionIs(env: Env, s: seq<Rule>, name: string)
    ensures
      match Position(env, s, name)
      case At(i) => OnlyAt(env, s, name, i)
      case Bad(e) => if e == NoSuchRule then forall k :: 0 <= k < |s| ==> !SameName(env, s[k], name)
                     else e == Ambiguous && exists i, j :: 0 <= i < j < |s| && SameName(env, s[i], name) && SameName(env, s[j], name)
  {
    var i := Named(env, s, name);
    if i < |s| {
      var rest := s[i + 1..];
      var j := Named(env, rest, name);
      assert forall k :: 0 <= k < |rest| ==> rest[k] == s[i + 1 + k];
      if j < |rest| { assert SameName(env, s[i], name) && SameName(env, s[i + 1 + j], name); }
    }
  }

  /** An added rule joins the others and nothing is lost; it is refused exactly for
      a bad mode, an empty name, a degraded store or a name already carried. */
  lemma AddDoes(env: Env, s: Store, r: Rule)
    ensures Plan(env, s, AddRule(r)).Change? ==>
              multiset(Plan(env, s, AddRule(r)).next) == multiset(s.rules) + multiset{r} && Descending(Plan(env, s, AddRule(r)).next)
    ensures Plan(env, s, AddRule(r)).Change? <==>
              env.validMode(r.mode) && env.ident(r.name) != "" && !(s.checked && !s.ok) && Carried(env, s.rules, r.name) == 0
  {
    SortedDescends(s.rules + [r]);
    CarriedIs(env, s.rules, r.name);
    assert Named(env, s.rules, r.name) == |s.rules| <==> forall k :: 0 <= k < |s.rules| ==> !SameName(env, s.rules[k], r.name);
  }

  /** A removal by name takes the rule that carries it and keeps the rest in order;
      it is refused exactly when not one rule carries the name. */
  lemma RemoveNameDoes(env: Env, s: Store, name: string)
    ensures Plan(env, s, RemoveName(name)).Change? ==>
              exists i: nat :: OnlyAt(env, s.rules, name, i) && Plan(env, s, RemoveName(name)).next == s.rules[..i] + s.rules[i + 1..]
    ensures Plan(env, s, RemoveName(name)).Change? <==> env.ident(name) != "" && Carried(env, s.rules, name) == 1
  {
    PositionIs(env, s.rules, name);
    CarriedIs(env, s.rules, name);
    if i: nat :| OnlyAt(env, s.rules, name, i) { assert SameName(env, s.rules[i], name); }
  }

  /** A removal by position takes the rule there, only while degraded and only under
      the name expected. */
  lemma RemovePositionDoes(env: Env, s: Store, at: int, expected: string)
    ensures
      var p := Plan(env, s, RemovePosition(at, expected));
      && (p.Change? <==> s.checked && !s.ok && 0 <= at < |s.rules| && s.rules[at].name == expected)
      && (p.Change? ==> p.next == s.rules[..at] + s.rules[at + 1..])
  {
  }

  /** A change is acknowledged exactly when it lands; then rules, file and epoch have
      moved together, and otherwise neither rules, verdict nor epoch has. */
  lemma AcknowledgedIffLanded(env: Env, s: Store, q: Request, w: Write)
    ensures
      var y, p := Call(env, s, q, w), Plan(env, s, q);
      && (Answer(env, s, q, w).Done? <==> p.Change? && (!s.bound || w.Written?))
      && (Answer(env, s, q, w).Done? ==> y.rules == p.next && y.epoch == s.epoch + 1 && (s.bound ==> y.file == Holds(y.rules)))
      && (!Answer(env, s, q, w).Done? ==> y.rules == s.rules && y.ok == s.ok && y.epoch == s.epoch)
      && (y.file != s.file ==> s.bound && p.Change? && y.file == Holds(p.next))
      && y.checked == s.checked && y.bound == s.bound
  {
  }

  /** A replacement with good names and modes installs those rules, in evaluation
      order, ties as given, and writes nothing; any other is refused. */
  lemma ReplaceDoes(env: Env, s: Store, list: seq<Rule>, p: int)
    ensures
      var y := Step(env, s, Replaces(list));
      if NamesOk(env.ident, list) && forall i :: 0 <= i < |list| ==> env.validMode(list[i].mode) then
        && multiset(y.rules) == multiset(list) && Descending(y.rules) && OfPriority(y.rules, p) == OfPriority(list, p)
        && y == s.(rules := y.rules, checked := true, ok := true, epoch := s.epoch + 1)
      else y == s
  {
    SortedDescends(list);
    SortedIsStable(list, p);
    ReplacesIs(env, s, list);
  }

  lemma ReplacesIs(env: Env, s: Store, list: seq<Rule>)
    ensures Step(env, s, Replaces(list)) ==
              if Replaceable(env, list) then s.(rules := Sorted(list), checked := true, ok := true, epoch := s.epoch + 1) else s
  {
  }

  /** A load installs what the file holds, in its order, with the verdict it
      deserves, and changes no rule otherwise; a save makes the file hold the rules. */
  lemma LoadAndSaveDo(env: Env, s: Store, readable: bool, w: Write)
    ensures
      var z := Step(env, s, Loads(readable));
      if readable && s.file.Holds? then
        z == Store(s.file.rules, s.file, true, true, NamesOk(env.ident, s.file.rules), s.epoch + 1)
      else z == s.(bound := true)
    ensures Step(env, s, Saves(w)) == (if s.bound && !w.NotWritten? then s.(file := Holds(s.rules)) else s)
  {
  }

  lemma StepKeeps(env: Env, s: Store, e: Event)
    requires Valid(env, s)
    ensures Valid(env, Step(env, s, e)) && s.epoch <= Step(env, s, e).epoch
    ensures Step(env, s, e).rules != s.rules ==> s.epoch < Step(env, s, e).epoch
    ensures InOrder(s) ==> InOrder(Step(env, s, e))
  {
    match e {
      case Calls(q, w) => if Plan(env, s, q).Change? { PlanKeeps(env, s, q); }
      case Replaces(list) => SortedNames(env.ident, list);
      case _ =>
    }
  }

  /** Over every run the integrity verdict stays true, every change of the rules
      raises the epoch, and a store whose rules and file are in descending order
      stays so: evaluation then takes the best match. */
  lemma {:induction false} StoreStaysValid(env: Env, s: Store, events: seq<Event>)
    requires Valid(env, s)
    ensures var y := Trace(env, s, events);
      && Valid(env, y) && s.epoch <= y.epoch && (y.rules != s.rules ==> s.epoch < y.epoch)
      && (InOrder(s) ==> InOrder(y) && forall hit: Rule -> bool :: PicksBest(y.rules, hit))
    decreases |events|
  {
    if events == [] {
      if InOrder(s) {
        DescendingIsEnough(s.rules);
        FirstIsBestIffDescending(s.rules);
      }
    } else {
      StepKeeps(env, s, events[0]);
      StoreStaysValid(env, Step(env, s, events[0]), events[1..]);
    }
  }

  /** The rule is in force and in the file, both with good names. */
  ghost predicate RuleHeld(env: Env, s: Store, r: Rule) {
    && s.bound && r in s.rules && NamesOk(env.ident, s.rules) && (s.checked ==> s.ok)
    && s.file.Holds? && r in s.file.rules && NamesOk(env.ident, s.file.rules)
  }

  /** The event removes the rule's name, or replaces the whole list. */
  predicate Displaces(env: Env, e: Event, r: Rule) {
    e.Replaces? || (e.Calls? && e.q.RemoveName? && env.ident(e.q.name) == env.ident(r.name))
  }

  lemma PlanHoldsRule(env: Env, s: Store, q: Request, r: Rule)
    requires RuleHeld(env, s, r) && Plan(env, s, q).Change? && (q.RemoveName? ==> env.ident(q.name) != env.ident(r.name))
    ensures r in Plan(env, s, q).next && NamesOk(env.ident, Plan(env, s, q).next) && (s.checked ==> Plan(env, s, q).ok)
  {
    PlanKeeps(env, s, q);
    match q {
      case AddRule(a) => AdditionHoldsRule(env, s, a, r);
      case RemoveName(name) => RemovalHoldsRule(env, s, name, r);
      case RemovePosition(_, _) =>
    }
  }

  lemma AdditionHoldsRule(env: Env, s: Store, a: Rule, r: Rule)
    requires r in s.rules && Plan(env, s, AddRule(a)).Change?
    ensures r in Plan(env, s, AddRule(a)).next
  {
    AddDoes(env, s, a);
    assert r in multiset(s.rules) && r in multiset(Plan(env, s, AddRule(a)).next);
  }

  lemma RemovalHoldsRule(env: Env, s: Store, name: string, r: Rule)
    requires r in s.rules && NamesOk(env.ident, s.rules) && Plan(env, s, RemoveName(name)).Change? && env.ident(name) != env.ident(r.name)
    ensures r in Plan(env, s, RemoveName(name)).next && NamesOk(env.ident, Plan(env, s, RemoveName(name)).next)
  {
    RemoveNameDoes(env, s, name);
    var next := Plan(env, s, RemoveName(name)).next;
    var i: nat :| OnlyAt(env, s.rules, name, i) && next == s.rules[..i] + s.rules[i + 1..];
    CutNames(env.ident, s.rules, i);
    CutHolds(env, s.rules, name, i, r);
  }

  lemma CutHolds(env: Env, s: seq<Rule>, name: string, i: nat, r: Rule)
    requires OnlyAt(env, s, name, i) && r in s && env.ident(name) != env.ident(r.name)
    ensures r in s[..i] + s[i + 1..]
  {
    assert SameName(env, s[i], name);
    assert s == s[..i] + [s[i]] + s[i + 1..];
  }

  lemma StepHoldsRule(env: Env, s: Store, e: Event, r: Rule)
    requires RuleHeld(env, s, r) && !Displaces(env, e, r)
    ensures RuleHeld(env, Step(env, s, e), r)
  {
    if e.Calls? && Plan(env, s, e.q).Change? { PlanHoldsRule(env, s, e.q, r); }
  }

  lemma {:induction false} RuleHeldAlways(env: Env, s: Store, events: seq<Event>, r: Rule)
    requires RuleHeld(env, s, r) && forall i :: 0 <= i < |events| ==> !Displaces(env, events[i], r)
    ensures RuleHeld(env, Trace(env, s, events), r)
    decreases |events|
  {
    if events != [] {
      StepHoldsRule(env, s, events[0], r);
      RuleHeldAlways(env, Step(env, s, events[0]), events[1..], r);
    }
  }

  /** An acknowledged rule stays: over every later run of additions, removals of
      other names, saves and loads, failing or not, it is in force and in the file,
      until its name is removed or the list replaced. */
  lemma AcknowledgedRuleStays(env: Env, s: Store, r: Rule, events: seq<Event>)
    requires Valid(env, s) && s.bound && Answer(env, s, AddRule(r), Written).Done?
    requires forall i :: 0 <= i < |events| ==> !Displaces(env, events[i], r)
    ensures RuleHeld(env, Trace(env, Call(env, s, AddRule(r), Written), events), r)
  {
    AcknowledgedIffLanded(env, s, AddRule(r), Written);
    AddDoes(env, s, r);
    PlanKeeps(env, s, AddRule(r));
    assert r in multiset(Plan(env, s, AddRule(r)).next);
    RuleHeldAlways(env, Call(env, s, AddRule(r), Written), events, r);
  }

  function EffectOf(env: Env, s: Store, e: Event): Effect<File> {
    match e
    case Calls(q, w) =>
      var p := Plan(env, s, q);
      if p.Refuse? then Nothing else if s.bound then Writes(Holds(p.next), w) else MemoryOnly(Holds(p.next))
    case Replaces(list) => if Replaceable(env, list) then MemoryOnly(Holds(Sorted(list))) else Nothing
    case Saves(w) => if s.bound then Writes(Holds(s.rules), w) else Nothing
    case Loads(readable) => if readable && s.file.Holds? then MemoryOnly(s.file) else Nothing
  }

  function Effects(env: Env, s: Store, events: seq<Event>): seq<Effect<File>>
    decreases |events|
  {
    if events == [] then [] else [EffectOf(env, s, events[0])] + Effects(env, Step(env, s, events[0]), events[1..])
  }

  lemma {:induction false} TraceIsEffects(env: Env, s: Store, events: seq<Event>)
    ensures ApplyAll(Copies(Holds(s.rules), s.file), Effects(env, s, events)) ==
              Copies(Holds(Trace(env, s, events).rules), Trace(env, s, events).file)
    decreases |events|
  {
    if events != [] {
      TraceIsEffects(env, Step(env, s, events[0]), events[1..]);
      assert Effects(env, s, events)[1..] == Effects(env, Step(env, s, events[0]), events[1..]);
    }
  }

  /** From equal copies, memory equals the file after a run if and only if nothing
      parted them for good: a different list replaced in memory only, or saved but
      reported as failed, with nothing that touches either copy since. */
  lemma MemoryEqualsFileIff(env: Env, s: Store, events: seq<Event>)
    requires s.file == Holds(s.rules)
    ensures
      var y := Trace(env, s, events);
      y.file == Holds(y.rules) <==> !exists n: nat :: PartedAt(Copies(Holds(s.rules), s.file), Effects(env, s, events), n)
  {
    TraceIsEffects(env, s, events);
    EqualIffNotParted(Copies(Holds(s.rules), s.file), Effects(env, s, events));
  }

  // ─── The code itself ──────────────────────────────────────────────────────

  class CDRPolicyStore {
    const env: Env
    var rules: seq<Rule>
    var file: File
    var bound: bool
    var checked: bool
    var ok: bool
    var epoch: nat

    function View(): Store
      reads this
    {
      Store(rules, file, bound, checked, ok, epoch)
    }

    constructor (env: Env, file: File)
      ensures View() == Store([], file, false, false, false, 0) && this.env == env && Valid(env, View())
    {
      this.env, this.file := env, file;
      rules, bound, checked, ok, epoch := [], false, false, false, 0;
    }

    method SaveLocked(w: Write) returns (saved: bool)
      modifies this`file
      ensures saved <==> Saved(View(), w).Written?
      ensures file == FileAfter(old(View()), w, rules)
    {
      if !bound { return true; }
      if !w.NotWritten? { file := Holds(rules); }
      saved := w.Written?;
    }

    method NamesIntegrity(list: seq<Rule>) returns (b: bool)
      ensures b <==> NamesOk(env.ident, list)
    {
      var i, seen := 0, {};
      while i < |list|
        invariant 0 <= i <= |list| && NamesOk(env.ident, list[..i])
        invariant forall n :: n in seen <==> exists k :: 0 <= k < i && env.ident(list[k].name) == n
      {
        var id := env.ident(list[i].name);
        if id == "" || id in seen {
          assert !NamesOk(env.ident, list);
          return false;
        }
        seen := seen + {id};
        i := i + 1;
      }
      assert list[..i] == list;
      return true;
    }

    method NameTaken(name: string) returns (b: bool)
      ensures b <==> Named(env, rules, name) < |rules|
    {
      var i := 0;
      while i < |rules|
        invariant 0 <= i <= |rules| && forall k :: 0 <= k < i ==> env.ident(rules[k].name) != env.ident(name)
      {
        if env.ident(rules[i].name) == env.ident(name) { return true; }
        i := i + 1;
      }
      return false;
    }

    /** Install, persist, raise the epoch; restore the old rules on failure. */
    method Publish(next: seq<Rule>, nextOk: bool, w: Write) returns (saved: bool)
      modifies this
      ensures saved <==> Saved(old(View()), w).Written?
      ensures View() == Commit(old(View()), next, nextOk, w)
    {
      var prev, prevOk := rules, ok;
      rules, ok := next, nextOk;
      saved := SaveLocked(w);
      if saved { epoch := epoch + 1; } else { rules, ok := prev, prevOk; }
    }

    method Add(r: Rule, w: Write) returns (o: Outcome)
      modifies this
      ensures View() == Call(env, old(View()), AddRule(r), w)
      ensures o == Answer(env, old(View()), AddRule(r), w)
    {
      if !env.validMode(r.mode) { return Failed(InvalidMode); }
      if env.ident(r.name) == "" { return Failed(EmptyName); }
      if checked && !ok { return Failed(Degraded); }
      var taken := NameTaken(r.name);
      if taken { return Failed(DuplicateName); }
      var next := SortedCopy(rules + [r]);
      var saved := Publish(next, ok, w);
      return if saved then Done else Failed(SaveFailed);
    }

    /** The one position of a name, or why there is none. */
    method Locate(name: string) returns (r: Result)
      ensures r == Position(env, rules, name)
    {
      var i: nat, found: Option<nat> := 0, None;
      while i < |rules|
        invariant i <= |rules| && match found
                                  case None => forall k :: 0 <= k < i ==> !SameName(env, rules[k], name)
                                  case Some(at) => at < i && OnlyAt(env, rules[..i], name, at)
      {
        if env.ident(rules[i].name) == env.ident(name) {
          if found.Some? {
            TwoNamed(env, rules, name, found.value, i);
            return Bad(Ambiguous);
          }
          found := Some(i);
        }
        i := i + 1;
      }
      assert rules[..i] == rules;
      if found.None? { return Bad(NoSuchRule); }
      OneNamed(env, rules, name, found.value);
      return At(found.value);
    }

    /** Nothing is removed unless exactly one rule carries the name. */
    method RemoveByName(name: string, w: Write) returns (o: Outcome)
      modifies this
      ensures View() == Call(env, old(View()), RemoveName(name), w)
      ensures o == Answer(env, old(View()), RemoveName(name), w)
    {
      if env.ident(name) == "" { return Failed(NoSuchRule); }
      var r := Locate(name);
      if r.Bad? { return Failed(r.error); }
      o := CutAt(r.index, w);
    }

    /** Drop the rule at `at`, re-judge the names, persist; undo on failure. */
    method CutAt(at: nat, w: Write) returns (o: Outcome)
      requires at < |rules|
      modifies this
      ensures var e := Removal(env, old(View()), at); View() == Commit(old(View()), e.next, e.ok, w)
      ensures o == if Saved(old(View()), w).Written? then Done else Failed(SaveFailed)
    {
      var next, nextOk := rules[..at] + rules[at + 1..], ok;
      if checked { nextOk := NamesIntegrity(next); }
      var saved := Publish(next, nextOk, w);
      return if saved then Done else Failed(SaveFailed);
    }

    /** The operator's repair: by position, only while degraded, only the named rule. */
    method RemoveAt(at: int, expectedName: string, w: Write) returns (o: Outcome)
      modifies this
      ensures View() == Call(env, old(View()), RemovePosition(at, expectedName), w)
      ensures o == Answer(env, old(View()), RemovePosition(at, expectedName), w)
    {
      if !checked || ok { return Failed(NotDegraded); }
      if at < 0 || at >= |rules| || rules[at].name != expectedName { return Failed(NoSuchRule); }
      o := CutAt(at, w);
    }

    /** Names in order: the first that is empty or already seen. */
    method ValidateIdentities(list: seq<Rule>) returns (e: Option<PolicyError>)
      ensures e == NameError(env, list)
    {
      var i, seen := 0, {};
      while i < |list|
        invariant 0 <= i <= |list| && NameError(env, list[..i]).None?
        invariant forall n :: n in seen <==> exists k :: 0 <= k < i && env.ident(list[k].name) == n
      {
        var id := env.ident(list[i].name);
        assert list[..i + 1][..i] == list[..i];
        if id == "" || id in seen {
          NameErrorStays(env, list, i + 1);
          return Some(if id == "" then EmptyName else DuplicateName);
        }
        seen := seen + {id};
        i := i + 1;
      }
      assert list[..i] == list;
      return None;
    }

    /** Replace installs a good list sorted, in memory only. */
    method Replace(list: seq<Rule>) returns (o: Outcome)
      modifies this
      ensures View() == Step(env, old(View()), Replaces(list))
      ensures o.Done? <==> Replaceable(env, list)
      ensures o == match ListError(env, list) case None => Done case Some(e) => Failed(e)
    {
      var i := 0;
      while i < |list|
        invariant 0 <= i <= |list| && View() == old(View()) && forall k :: 0 <= k < i ==> env.validMode(list[k].mode)
      {
        if !env.validMode(list[i].mode) { return Failed(InvalidMode); }
        i := i + 1;
      }
      var bad := ValidateIdentities(list);
      NameErrorIff(env, list);
      if bad.Some? { return Failed(bad.value); }
      rules := SortedCopy(list);
      SortedNames(env.ident, list);
      ok := NamesIntegrity(rules);
      checked, epoch := true, epoch + 1;
      return Done;
    }

    method Save(w: Write) returns (saved: bool)
      modifies this`file
      ensures View() == Step(env, old(View()), Saves(w))
      ensures saved <==> Saved(View(), w).Written?
    {
      saved := SaveLocked(w);
    }

    /** Load keeps the file verbatim and records whether its names are good.  A
        missing file is no error; after an error the path is set all the same. */
    method Load(readable: bool) returns (loaded: bool)
      modifies this
      ensures View() == Step(env, old(View()), Loads(readable))
      ensures loaded <==> file.Missing? || (readable && file.Holds?)
    {
      bound := true;
      if file.Missing? { return true; }
      if !readable || file.Unparsable? { return false; }
      rules := file.rules;
      ok := NamesIntegrity(rules);
      checked, epoch := true, epoch + 1;
      return true;
    }
  }

  lemma OneNamed(env: Env, s: seq<Rule>, name: string, i: nat)
    requires OnlyAt(env, s, name, i)
    ensures Position(env, s, name) == At(i)
  {
    var rest := s[i + 1..];
    assert SameName(env, s[i], name);
    forall k | 0 <= k < |s| && k != i ensures env.ident(s[k].name) != env.ident(name) { assert !SameName(env, s[k], name); }
    assert forall k :: 0 <= k < |rest| ==> rest[k] == s[i + 1 + k];
  }

  lemma TwoNamed(env: Env, s: seq<Rule>, name: string, i: nat, j: nat)
    requires j < |s| && OnlyAt(env, s[..j], name, i) && SameName(env, s[j], name)
    ensures Position(env, s, name) == Bad(Ambiguous)
  {
    var n, rest := Named(env, s, name), s[i + 1..];
    assert SameName(env, s[..j][i], name);
    forall k | 0 <= k < i ensures env.ident(s[k].name) != env.ident(name) { assert !SameName(env, s[..j][k], name); }
    assert rest[j - i - 1] == s[j];
    assert Named(env, rest, name) < |rest|;
  }
}
