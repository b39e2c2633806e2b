/** Values shared by every module. */
module Wrappers {
  datatype Option<+T> = None | Some(value: T)

  /** What an atomic file write can do (internal/fileutil/fileutil.go:95-161):
      replace the file, leave it alone with an error, or replace it and then
      report an error because the directory could not be synced. */
  datatype Write = Written | NotWritten | ReplacedNotSynced

  /** Nothing is left after trimming white space. */
  predicate Blank(s: string) {
    forall i :: 0 <= i < |s| ==> s[i] in {' ', '\t', '\n', '\r'}
  }

  /** An identifier nobody has used yet. */
  lemma {:induction false} UnusedId(used: set<nat>) returns (n: nat)
    ensures n !in used && forall u :: u in used ==> u < n
    decreases used
  {
    if used == {} {
      n := 0;
    } else {
      var u :| u in used;
      var m := UnusedId(used - {u});
      n := if u < m then m else u + 1;
      forall v | v in used ensures v < n { assert v == u || v in used - {u}; }
    }
  }
}
