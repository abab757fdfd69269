/** Limits of the kernel (param.h), and what it means for a list to have no element twice. */
module Params {
  const NPROC := 64
  const MAXOPBLOCKS := 10
  const LOGBLOCKS := 30
  const NBUF := 30

  ghost predicate Distinct<T>(s: seq<T>) {
    forall i, j :: 0 <= i < j < |s| ==> s[i] != s[j]
  }
}
