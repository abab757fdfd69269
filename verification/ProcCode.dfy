/**
  The table-scan loops of proc.c, in place on the process table, each run without
  interruption: wakeup, reparent, the slot search of allocproc, the child search of kwait,
  and kkill.  ProcMachine runs the same loops one slot at a time among other processes.
 */
module ProcCode {
  import opened Params
  import opened ProcMachine

  /** The table after wakeup(c). */
  ghost predicate AllWoken(before: seq<Proc>, after: seq<Proc>, c: Chan) {
    |after| == |before| && forall j :: 0 <= j < |before| ==> after[j] == WakeOne(before[j], c)
  }

  /** Nobody is left on the channel, nobody else is disturbed, and a second wakeup finds nothing to do. */
  lemma AllWokenMeaning(before: seq<Proc>, after: seq<Proc>, c: Chan)
    requires AllWoken(before, after, c) && c != NoChan
    ensures forall j :: 0 <= j < |before| ==> after[j].chan != c
    ensures forall j :: 0 <= j < |before| && before[j].chan != c ==> after[j] == before[j]
    ensures forall j :: 0 <= j < |before| && before[j].chan == c && before[j].state == SLEEPING ==>
      after[j].state == RUNNABLE
    ensures AllWoken(after, after, c)
  {
    forall j | 0 <= j < |after| ensures after[j].chan != c && WakeOne(after[j], c) == after[j] {
      assert after[j] == WakeOne(before[j], c);
    }
  }

  /** ProcMachine's wakeup steps for the first n slots, one after the other. */
  function WakeSteps(t: seq<Proc>, c: Chan, n: nat): (r: seq<Proc>)
    requires n <= |t|
    ensures |r| == |t|
  {
    if n == 0 then t else Wake(WakeSteps(t, c, n - 1), n - 1, c)
  }

  lemma {:induction false} WakeStepsAt(t: seq<Proc>, c: Chan, n: nat, j: int)
    requires n <= |t| && 0 <= j < |t|
    ensures WakeSteps(t, c, n)[j] == if j < n then WakeOne(t[j], c) else t[j]
  {
    if n > 0 { WakeStepsAt(t, c, n - 1, j); }
  }

  /** Uninterrupted, they are the wakeup loop. */
  lemma WakeStepsAll(t: seq<Proc>, c: Chan)
    ensures AllWoken(t, WakeSteps(t, c, |t|), c)
  {
    forall j | 0 <= j < |t| ensures WakeSteps(t, c, |t|)[j] == WakeOne(t[j], c) { WakeStepsAt(t, c, |t|, j); }
  }

  /** The table after reparent(p): the children of p belong to init, which is awake if there were any. */
  ghost predicate Adopted(before: seq<Proc>, after: seq<Proc>, p: int) {
    |after| == |before| &&
    forall j :: 0 <= j < |before| ==> after[j] == AdoptOne(before, before[j], p)
  }

  ghost predicate HasChild(t: seq<Proc>, p: int, n: int) {
    exists j :: 0 <= j < n && j < |t| && t[j].parent == p
  }

  ghost function AdoptOne(t: seq<Proc>, q: Proc, p: int): Proc {
    Adopt(q, p, HasChild(t, p, |t|))
  }

  function Adopt(q: Proc, p: int, any: bool): Proc {
    var r := if any then WakeOne(q, Child(INIT)) else q;
    if q.parent == p then r.(parent := INIT) else r
  }

  datatype Search = Reaped(slot: int) | Waits | NoChildren

  class Table {
    const proc: array<Proc>

    constructor ()
      ensures proc.Length == NPROC && fresh(proc) && forall j :: 0 <= j < NPROC ==> proc[j] == FREE_PROC
    {
      proc := new Proc[NPROC](i => FREE_PROC);
    }

    /** wakeup */
    method Wakeup(c: Chan)
      modifies proc
      ensures AllWoken(old(proc[..]), proc[..], c)
    {
      var j := 0;
      while j < proc.Length
        invariant 0 <= j <= proc.Length
        invariant forall k :: 0 <= k < j ==> proc[k] == WakeOne(old(proc[k]), c)
        invariant forall k :: j <= k < proc.Length ==> proc[k] == old(proc[k])
      {
        if proc[j].chan == c {
          proc[j] := proc[j].(chan := NoChan);
          if proc[j].state == SLEEPING { proc[j] := proc[j].(state := RUNNABLE); }
        }
        j := j + 1;
      }
    }

    /** reparent: the wakeups inside the loop have the effect of a single one. */
    method Reparent(p: int)
      requires p != INIT
      modifies proc
      ensures Adopted(old(proc[..]), proc[..], p)
    {
      ghost var before := proc[..];
      var j := 0;
      while j < proc.Length
        invariant 0 <= j <= proc.Length == |before|
        invariant forall k :: 0 <= k < j ==> proc[k] == Adopt(before[k], p, HasChild(before, p, j))
        invariant forall k :: j <= k < proc.Length ==> proc[k] == Awake(before[k], HasChild(before, p, j))
      {
        ghost var any := HasChild(before, p, j);
        assert HasChild(before, p, j + 1) <==> any || before[j].parent == p;
        if proc[j].parent == p {
          proc[j] := proc[j].(parent := INIT);
          ghost var middle := proc[..];
          Wakeup(Child(INIT));
          forall k | 0 <= k < proc.Length ensures proc[k] == WakeOne(middle[k], Child(INIT)) {}
        }
        j := j + 1;
      }
    }

    /** allocproc's search: the first free slot. */
    method FindFree() returns (i: int)
      ensures -1 <= i < proc.Length
      ensures i >= 0 ==> proc[i].state == UNUSED && forall k :: 0 <= k < i ==> proc[k].state != UNUSED
      ensures i == -1 ==> forall k :: 0 <= k < proc.Length ==> proc[k].state != UNUSED
    {
      i := 0;
      while i < proc.Length
        invariant 0 <= i <= proc.Length && forall k :: 0 <= k < i ==> proc[k].state != UNUSED
      {
        if proc[i].state == UNUSED { return; }
        i := i + 1;
      }
      i := -1;
    }

    /** One pass of kwait: the first zombie child is freed; or it tells whether there are children at all. */
    method Reap(p: int) returns (found: Search)
      modifies proc
      ensures found.Reaped? ==>
        && 0 <= found.slot < proc.Length && old(proc[found.slot]).parent == p && old(proc[found.slot]).state == ZOMBIE
        && proc[..] == old(proc[..])[found.slot := FREE_PROC]
      ensures !found.Reaped? ==> proc[..] == old(proc[..])
      ensures found.Reaped? <==>
        exists k :: 0 <= k < proc.Length && old(proc[k]).parent == p && old(proc[k]).state == ZOMBIE
      ensures found == NoChildren <==> !HasChild(old(proc[..]), p, proc.Length)
    {
      var havekids := false;
      var i := 0;
      while i < proc.Length
        invariant 0 <= i <= proc.Length && proc[..] == old(proc[..])
        invariant havekids <==> HasChild(proc[..], p, i)
        invariant forall k :: 0 <= k < i ==> !(proc[k].parent == p && proc[k].state == ZOMBIE)
      {
        if proc[i].parent == p {
          havekids := true;
          assert proc[..][i].parent == p;
          if proc[i].state == ZOMBIE {
            proc[i] := FREE_PROC;
            return Reaped(i);
          }
        }
        i := i + 1;
      }
      found := if havekids then Waits else NoChildren;
    }

    /** kkill: the first process with that pid is marked, and no longer sleeps. */
    method Kkill(pid: int) returns (r: int)
      modifies proc
      ensures r == 0 || r == -1
      ensures r == -1 ==> proc[..] == old(proc[..]) && forall k :: 0 <= k < proc.Length ==> old(proc[k]).pid != pid
      ensures r == 0 ==> exists k :: 0 <= k < proc.Length && Killed(old(proc[..]), proc[..], k, pid)
    {
      var i := 0;
      while i < proc.Length
        invariant 0 <= i <= proc.Length && proc[..] == old(proc[..])
        invariant forall k :: 0 <= k < i ==> proc[k].pid != pid
      {
        if proc[i].pid == pid {
          proc[i] := proc[i].(killed := true);
          if proc[i].state == SLEEPING { proc[i] := proc[i].(state := RUNNABLE); }
          assert Killed(old(proc[..]), proc[..], i, pid);
          return 0;
        }
        i := i + 1;
      }
      r := -1;
    }
  }

  function Awake(q: Proc, any: bool): Proc {
    if any then WakeOne(q, Child(INIT)) else q
  }

  ghost predicate Killed(before: seq<Proc>, after: seq<Proc>, k: int, pid: int) {
    && 0 <= k < |before| && before[k].pid == pid && (forall j :: 0 <= j < k ==> before[j].pid != pid)
    && after == before[k := before[k].(killed := true,
         state := if before[k].state == SLEEPING then RUNNABLE else before[k].state)]
  }
}
