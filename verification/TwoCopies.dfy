/** A store with one copy in memory and one in its file, and what a step can do to
    the pair.  Every persisted store of this project maps its steps to effects. */
module TwoCopies {
  import opened Wrappers

  datatype Copies<T> = Copies(mem: T, disk: T)

  datatype Effect<T> =
    | Nothing               // refused, or the write failed before replacing the file
    | FullySaved(v: T)      // written and published
    | HalfSaved(v: T)       // file replaced, failure reported, memory kept
    | MemoryOnly(v: T)      // published without a write, or loaded from the file

  function Apply<T>(c: Copies<T>, e: Effect<T>): Copies<T> {
    match e
    case Nothing => c
    case FullySaved(v) => Copies(v, v)
    case HalfSaved(v) => c.(disk := v)
    case MemoryOnly(v) => c.(mem := v)
  }

  function ApplyAll<T>(c: Copies<T>, es: seq<Effect<T>>): Copies<T>
    decreases |es|
  {
    if es == [] then c else ApplyAll(Apply(c, es[0]), es[1..])
  }

  /** The effect of handing `next` to an atomic write. */
  function Writes<T>(next: T, w: Write): Effect<T> {
    match w
    case Written => FullySaved(next)
    case NotWritten => Nothing
    case ReplacedNotSynced => HalfSaved(next)
  }

  /** The step puts a different value on one side only. */
  predicate Parts<T(==)>(c: Copies<T>, e: Effect<T>) {
    match e
    case HalfSaved(v) => v != c.mem
    case MemoryOnly(v) => v != c.disk
    case _ => false
  }

  /** Step `n` parted the copies and nothing has touched either since. */
  ghost predicate PartedAt<T(!new)>(c: Copies<T>, es: seq<Effect<T>>, n: nat) {
    n < |es| && Parts(ApplyAll(c, es[..n]), es[n]) && forall m :: n < m < |es| ==> es[m].Nothing?
  }

  lemma {:induction false} ApplyLast<T>(c: Copies<T>, es: seq<Effect<T>>, e: Effect<T>)
    ensures ApplyAll(c, es + [e]) == Apply(ApplyAll(c, es), e)
    decreases |es|
  {
    if es == [] {
      assert (es + [e])[1..] == [];
    } else {
      assert (es + [e])[1..] == es[1..] + [e];
      ApplyLast(Apply(c, es[0]), es[1..], e);
    }
  }

  /** From equal copies, a run ends with equal copies if and only if no step parted
      them that nothing has followed up since. */
  lemma {:induction false} EqualIffNotParted<T(!new)>(c: Copies<T>, es: seq<Effect<T>>)
    requires c.mem == c.disk
    ensures ApplyAll(c, es).mem == ApplyAll(c, es).disk <==> !exists n: nat :: PartedAt(c, es, n)
    decreases |es|
  {
    if es != [] {
      var k := |es| - 1;
      var front, last := es[..k], es[k];
      assert es == front + [last];
      ApplyLast(c, front, last);
      EqualIffNotParted(c, front);
      if last.Nothing? {
        forall n: nat ensures PartedAt(c, es, n) <==> PartedAt(c, front, n) {
          if n < k { assert es[..n] == front[..n] && es[n] == front[n]; }
          if PartedAt(c, front, n) { assert forall m :: n < m < k ==> es[m] == front[m]; }
          if PartedAt(c, es, n) && n < k { assert forall m :: n < m < k ==> front[m] == es[m]; }
        }
      } else {
        assert PartedAt(c, es, k) <==> Parts(ApplyAll(c, front), last);
        assert forall n: nat :: n < k ==> !PartedAt(c, es, n);
      }
    }
  }
}
