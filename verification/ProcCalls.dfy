/**
  What whole calls of acquiresleep, releasesleep, kwait, kexit, kfork and kkill do, in every
  run of the process machine: who holds a sleep lock, when kwait returns and with what.
 */
module ProcCalls {
  import opened Params
  import opened ProcMachine
  import opened ProcProof

  /** The run's step at j is this one. */
  ghost predicate Takes(run: seq<State>, j: int, step: Step) {
    0 <= j < |run| - 1 && Enabled(run[j], step) && run[j + 1] == Apply(run[j], step)
  }

  lemma RunStep(run: seq<State>, j: nat) returns (step: Step)
    requires IsRun(run) && j + 1 < |run|
    ensures Takes(run, j, step) && Inv(run[j]) && Inv(run[j + 1])
  {
    RunKeepsInv(run, j);
    RunKeepsInv(run, j + 1);
    assert Next(run[j], run[j + 1]);
    step :| Enabled(run[j], step) && run[j + 1] == Apply(run[j], step);
  }

  lemma InvSized(run: seq<State>, k: nat)
    requires IsRun(run) && k < |run|
    ensures Inv(run[k]) && Sized(run[k])
  {
    RunKeepsInv(run, k);
  }

  /** The process that takes the step, if one does. */
  function Actor(step: Step): int {
    if step.Kill? || step.ConsoleInput? || step.ConsoleWake? then NONE else step.p
  }

  /** What kfork, kexit and kwait decide about a process is as before. */
  predicate SameRole(q: Proc, q': Proc) {
    && q'.parent == q.parent && q'.pid == q.pid && q'.xstate == q.xstate && (q.killed ==> q'.killed)
    && (q'.state == ZOMBIE <==> q.state == ZOMBIE) && (q'.state == UNUSED <==> q.state == UNUSED)
    && (q'.pc.Scanning? || IsFork(q'.pc) ==> q'.pc == q.pc)
  }

  /** The steps of sleep locks and the console. */
  predicate DeviceStep(step: Step) {
    || step.AcquireSleep? || step.ReleaseSleep? || step.ReleaseWake?
    || step.ConsoleRead? || step.ConsoleGivesUp? || step.ConsoleInput? || step.ConsoleWake?
  }

  /** The other steps leave the process tree alone, and its history. */
  lemma Quiet(s: State, step: Step, q: int)
    requires Enabled(s, step) && !TreeStep(step) && Slot(q)
    ensures var t := Apply(s, step);
      Sized(t) && SameRole(s.procs[q], t.procs[q]) && (Actor(step) != q ==> t.procs[q].pc == s.procs[q].pc)
  {
    if DeviceStep(step) { hide Apply, Enabled; DeviceQuiet(s, step, q); }
  }

  lemma DeviceQuiet(s: State, step: Step, q: int)
    requires Enabled(s, step) && DeviceStep(step) && Slot(q)
    ensures var t := Apply(s, step);
      Sized(t) && SameRole(s.procs[q], t.procs[q]) && (Actor(step) != q ==> t.procs[q].pc == s.procs[q].pc)
  {
    if step.ReleaseWake? || step.ConsoleWake? { hide Apply, Enabled; WakeQuiet(s, step, q); }
  }

  lemma WakeQuiet(s: State, step: Step, q: int)
    requires Enabled(s, step) && (step.ReleaseWake? || step.ConsoleWake?) && Slot(q)
    ensures var t := Apply(s, step);
      Sized(t) && SameRole(s.procs[q], t.procs[q]) && (Actor(step) != q ==> t.procs[q].pc == s.procs[q].pc)
  {
  }

  lemma QuietHistory(s: State, step: Step)
    requires Enabled(s, step) && !TreeStep(step)
    ensures var t := Apply(s, step);
      && Sized(t)
      && t.exited == s.exited && t.statuses == s.statuses && t.reaped == s.reaped && t.delivered == s.delivered
  {
  }

  /** A live process moves through the kernel by steps of its own. */
  lemma MovesItself(s: State, step: Step, p: int)
    requires Inv(s) && Enabled(s, step) && Slot(p) && Live(s.procs[p]) && Actor(step) != p
    ensures Sized(Apply(s, step)) && Apply(s, step).procs[p].pc == s.procs[p].pc
  {
    hide Inv, Apply, Enabled;
    if TreeStep(step) { TreeMovesItself(s, step, p); } else { Quiet(s, step, p); }
  }

  predicate ForkStep(step: Step) {
    step.AllocChild? || step.ForkFails? || step.LinkChild? || step.StartChild?
  }

  lemma TreeMovesItself(s: State, step: Step, p: int)
    requires Inv(s) && Enabled(s, step) && TreeStep(step) && Slot(p) && Live(s.procs[p]) && step.p != p
    ensures Sized(Apply(s, step)) && Apply(s, step).procs[p].pc == s.procs[p].pc
  {
    hide Inv;
    if step.ForkFails? || step.StartChild? { ForksFine(s, step.p); }
  }

  lemma SlotFine(s: State, p: int)
    requires Inv(s) && Slot(p)
    ensures SlotOk(s, p)
  {
  }

  lemma ForksFine(s: State, p: int)
    requires Inv(s) && Slot(p) && IsFork(s.procs[p].pc)
    ensures Slot(s.procs[p].pc.np) && s.procs[p].pc.np != p && s.procs[s.procs[p].pc.np].state == USED
    ensures s.procs[p].pc.Forked? ==> s.procs[s.procs[p].pc.np].parent == p
  {
    assert ForkOk(s, p);
  }

  // ---------------------------------------------------------------- sleep locks

  /** A held sleep lock stays with its owner, unless the owner releases it. */
  lemma LockStays(s: State, step: Step, l: int)
    requires Enabled(s, step) && 0 <= l < NLOCK && s.locks[l].locked && step != ReleaseSleep(s.locks[l].owner, l)
    ensures var t := Apply(s, step);
      Sized(t) && t.locks[l].locked && t.locks[l].owner == s.locks[l].owner
  {
    if TreeStep(step) { hide Apply, Enabled; TreeKeepsLocks(s, step); }
  }

  lemma TreeKeepsLocks(s: State, step: Step)
    requires Enabled(s, step) && TreeStep(step)
    ensures Sized(Apply(s, step)) && Apply(s, step).locks == s.locks
  {
  }

  /** p comes out of acquiresleep with step j. */
  ghost predicate Gets(run: seq<State>, j: int, p: int, l: int) {
    Takes(run, j, AcquireSleep(p, l)) && Sized(run[j + 1]) && run[j + 1].procs[p].pc == User
  }

  /** acquiresleep takes a free lock; on a held one it registers, and the lock does not change. */
  lemma AcquireOutcome(run: seq<State>, j: nat, p: int, l: int)
    requires Takes(run, j, AcquireSleep(p, l))
    ensures var s, t := run[j], run[j + 1];
      && Slot(p) && 0 <= l < NLOCK && Sized(s) && Sized(t) && (Gets(run, j, p, l) <==> !s.locks[l].locked)
      && (!s.locks[l].locked ==> t.locks[l].locked && t.locks[l].owner == p)
      && (s.locks[l].locked ==>
            t.locks == s.locks && t.procs[p].chan == Lock(l) && t.procs[p].pc == Registered(Lock(l)))
  {
  }

  /** From acquiresleep to its own releasesleep, p is the owner. */
  lemma {:induction false} OwnsUntilRelease(run: seq<State>, a: nat, k: nat, p: int, l: int)
    requires IsRun(run) && Gets(run, a, p, l) && a < k < |run|
    requires forall j :: a < j < k ==> !Takes(run, j, ReleaseSleep(p, l))
    ensures 0 <= l < NLOCK && Sized(run[k]) && run[k].locks[l].locked && run[k].locks[l].owner == p
  {
    hide Inv, Apply, Enabled, Init;
    AcquireOutcome(run, a, p, l);
    if k > a + 1 {
      OwnsUntilRelease(run, a, k - 1, p, l);
      var step := RunStep(run, k - 1);
      assert !Takes(run, k - 1, ReleaseSleep(p, l));
      LockStays(run[k - 1], step, l);
    }
  }

  /** Mutual exclusion: between two processes' holding of a lock lies the first one's release. */
  lemma MutualExclusion(run: seq<State>, a: nat, b: nat, p: int, q: int, l: int)
    requires IsRun(run) && a < b && Gets(run, a, p, l) && Gets(run, b, q, l)
    ensures exists j :: a < j < b && Takes(run, j, ReleaseSleep(p, l))
  {
    hide Inv, Apply, Enabled, Init;
    if forall j :: a < j < b ==> !Takes(run, j, ReleaseSleep(p, l)) {
      OwnsUntilRelease(run, a, b, p, l);
      AcquireOutcome(run, b, q, l);
    }
  }

  /** A released lock is free until somebody takes it. */
  lemma {:induction false} FreeUntilTaken(run: seq<State>, a: nat, k: nat, p: int, l: int)
    requires IsRun(run) && Takes(run, a, ReleaseSleep(p, l)) && a < k < |run|
    requires forall j, q :: a < j < k ==> !Gets(run, j, q, l)
    ensures 0 <= l < NLOCK && Sized(run[k]) && !run[k].locks[l].locked
  {
    hide Inv, Apply, Enabled, Init;
    if k == a + 1 {
      Released(run[a], p, l);
    } else {
      FreeUntilTaken(run, a, k - 1, p, l);
      var step := RunStep(run, k - 1);
      if step.AcquireSleep? && step.k == l {
        AcquireOutcome(run, k - 1, step.p, l);
      } else {
        StaysFree(run[k - 1], step, l);
      }
    }
  }

  lemma Released(s: State, p: int, l: int)
    requires Enabled(s, ReleaseSleep(p, l))
    ensures 0 <= l < NLOCK && Sized(Apply(s, ReleaseSleep(p, l))) && !Apply(s, ReleaseSleep(p, l)).locks[l].locked
  {
  }

  lemma StaysFree(s: State, step: Step, l: int)
    requires Enabled(s, step) && 0 <= l < NLOCK && !s.locks[l].locked && !(step.AcquireSleep? && step.k == l)
    ensures Sized(Apply(s, step)) && !Apply(s, step).locks[l].locked
  {
    if TreeStep(step) { hide Apply, Enabled; TreeKeepsLocks(s, step); }
  }

  /** p is in acquiresleep, waiting for lock l. */
  predicate AwaitsLock(pc: Pc, l: int) {
    (pc.Registered? || pc.Asleep? || pc.Woken?) && pc.c == Lock(l)
  }

  /** A wakeup is not the lock: a waiter goes on waiting until it takes the lock. */
  lemma WaiterStays(s: State, step: Step, p: int, l: int)
    requires Inv(s) && Enabled(s, step) && Slot(p) && 0 <= l < NLOCK && AwaitsLock(s.procs[p].pc, l)
    ensures var t := Apply(s, step);
      Sized(t) && (AwaitsLock(t.procs[p].pc, l) || (step == AcquireSleep(p, l) && t.procs[p].pc == User))
  {
    hide Inv;
    SlotFine(s, p);
    if Actor(step) != p { MovesItself(s, step, p); }
  }

  /** acquiresleep returns only with the lock. */
  lemma {:induction false} AcquireReturnsWithLock(run: seq<State>, a: nat, k: nat, p: int, l: int)
    requires IsRun(run) && Takes(run, a, AcquireSleep(p, l)) && a < k < |run|
    ensures Sized(run[k])
    ensures AwaitsLock(run[k].procs[p].pc, l) || exists j :: a <= j < k && Gets(run, j, p, l)
  {
    hide Inv, Apply, Enabled, Init;
    InvSized(run, k);
    AcquireOutcome(run, a, p, l);
    if k > a + 1 {
      AcquireReturnsWithLock(run, a, k - 1, p, l);
      if forall j :: a <= j < k - 1 ==> !Gets(run, j, p, l) {
        var step := RunStep(run, k - 1);
        WaiterStays(run[k - 1], step, p, l);
        if !AwaitsLock(run[k].procs[p].pc, l) { assert Gets(run, k - 1, p, l); }
      }
    }
  }

  // ---------------------------------------------------------------- kwait

  /** Some slot below i is a child of p. */
  ghost predicate ChildBelow(s: State, p: int, i: int)
    requires Sized(s)
  {
    exists c :: 0 <= c < i && Slot(c) && s.procs[c].parent == p
  }

  /** kwait's havekids, at any point of its scan, tells whether it has passed a child. */
  ghost predicate KidsRight(s: State, p: int)
    requires Sized(s) && Slot(p)
  {
    s.procs[p].pc.Scanning? ==> (s.procs[p].pc.kids <==> ChildBelow(s, p, s.procs[p].pc.i))
  }

  ghost predicate KidsOk(s: State)
    requires Sized(s)
  {
    forall p {:trigger KidsRight(s, p)} :: Slot(p) ==> KidsRight(s, p)
  }

  /** While a scan holds wait_lock, nobody gains or loses a parent. */
  lemma ParentsHeld(s: State, step: Step, p: int)
    requires Inv(s) && Enabled(s, step) && Slot(p) && s.procs[p].pc.Scanning? && step != WaitScan(p)
    ensures var t := Apply(s, step);
      Sized(t) && forall c :: Slot(c) ==> t.procs[c].parent == s.procs[c].parent
  {
    hide Apply, Enabled, SlotOk, LinkOk, ForkOk, ExitOk, WaitsForReason, LocksOk, PidsOk;
    forall c | Slot(c) ensures Sized(Apply(s, step)) && Apply(s, step).procs[c].parent == s.procs[c].parent {
      if TreeStep(step) { TreeParentsHeld(s, step, p, c); } else { Quiet(s, step, c); }
    }
  }

  lemma TreeParentsHeld(s: State, step: Step, p: int, c: int)
    requires Inv(s) && Enabled(s, step) && TreeStep(step) && Slot(p) && s.procs[p].pc.Scanning? && step != WaitScan(p)
    requires Slot(c)
    ensures Sized(Apply(s, step)) && Apply(s, step).procs[c].parent == s.procs[c].parent
  {
    hide Inv;
    SlotFine(s, p);
    if ForkStep(step) { hide Apply, Enabled, SlotOk; ForkKeepsParents(s, step, c); }
    else if step.ExitReparent? || step.WaitScan? { SlotFine(s, step.p); }
  }

  lemma ForkKeepsParents(s: State, step: Step, c: int)
    requires Enabled(s, step) && ForkStep(step) && s.waitLock != NONE && Slot(c)
    ensures Sized(Apply(s, step)) && Apply(s, step).procs[c].parent == s.procs[c].parent
  {
  }

  /** A process gets to another point of its scan only by a step of its own. */
  lemma ScanMoves(s: State, step: Step, p: int)
    requires Inv(s) && Enabled(s, step) && Slot(p)
    ensures var t := Apply(s, step);
      && Sized(t)
      && (t.procs[p].pc.Scanning? && t.procs[p].pc != s.procs[p].pc ==> step == WaitBegin(p) || step == WaitScan(p))
  {
    hide Inv;
    if !TreeStep(step) { hide Apply, Enabled; Quiet(s, step, p); }
  }

  lemma StepKidsRight(s: State, step: Step, p: int)
    requires Inv(s) && KidsOk(s) && Enabled(s, step) && Slot(p)
    ensures Sized(Apply(s, step)) && KidsRight(Apply(s, step), p)
  {
    hide Inv;
    var t := Apply(s, step);
    ScanMoves(s, step, p);
    assert KidsRight(s, p);
    if t.procs[p].pc.Scanning? && step != WaitBegin(p) && step != WaitScan(p) {
      ParentsHeld(s, step, p);
    }
    if step == WaitScan(p) && t.procs[p].pc.Scanning? {
      ScanCounts(s, p);
    }
  }

  lemma ScanCounts(s: State, p: int)
    requires Enabled(s, WaitScan(p)) && KidsRight(s, p) && Scan(s, p).procs[p].pc.Scanning?
    ensures Sized(Scan(s, p)) && KidsRight(Scan(s, p), p)
  {
    var t, i := Scan(s, p), s.procs[p].pc.i;
    assert t.procs[p].pc.i == i + 1;
    assert forall c :: Slot(c) ==> t.procs[c].parent == s.procs[c].parent;
    if ChildBelow(s, p, i) {
      var c :| 0 <= c < i && Slot(c) && s.procs[c].parent == p;
      assert t.procs[c].parent == p;
    }
    if s.procs[i].parent == p { assert t.procs[i].parent == p; }
  }

  lemma {:induction false} RunKeepsKids(run: seq<State>, k: nat)
    requires IsRun(run) && k < |run|
    ensures Inv(run[k]) && KidsOk(run[k])
  {
    hide Inv, Apply, Enabled;
    InvSized(run, k);
    if k > 0 {
      RunKeepsKids(run, k - 1);
      var step := RunStep(run, k - 1);
      forall p {:trigger KidsRight(run[k], p)} | Slot(p) ensures KidsRight(run[k], p) {
        StepKidsRight(run[k - 1], step, p);
      }
    }
  }

  /** kwait after a whole scan: it gives up exactly if p is killed or has no child, and registers otherwise. */
  lemma WaitDecides(s: State, p: int)
    requires Inv(s) && KidsOk(s) && Enabled(s, WaitEnd(p))
    ensures var t, alone := Apply(s, WaitEnd(p)), forall c :: Slot(c) ==> s.procs[c].parent != p;
      && Sized(t) && t.waitLock == NONE && t.reaped == s.reaped
      && (t.procs[p].pc == User <==> s.procs[p].killed || alone)
      && (t.procs[p].pc == Registered(Child(p)) && t.procs[p].chan == Child(p) <==> !s.procs[p].killed && !alone)
  {
    assert KidsRight(s, p);
    if s.procs[p].pc.kids {
      var c :| 0 <= c < s.procs[p].pc.i && Slot(c) && s.procs[c].parent == p;
    }
  }

  /** p is in kwait: scanning, or waiting for a child. */
  predicate InWait(pc: Pc, p: int) {
    pc.Scanning? || ((pc.Registered? || pc.Asleep? || pc.Woken?) && pc.c == Child(p))
  }

  /** The ways out of kwait. */
  ghost predicate WaitReturns(s: State, t: State, p: int) {
    && Sized(s) && Sized(t) && Slot(p) && t.procs[p].pc == User
    && (|| (exists c :: Slot(c) && s.procs[c].parent == p && s.procs[c].state == ZOMBIE && t.procs[c] == FREE_PROC &&
              t.reaped == s.reaped + [s.procs[c].pid] && t.delivered == s.delivered + [s.procs[c].xstate])
        || (t.reaped == s.reaped && exists c :: Slot(c) && s.procs[c].parent == p && s.procs[c].state == ZOMBIE)
        || (t.reaped == s.reaped && s.procs[p].killed)
        || (t.reaped == s.reaped && forall c :: Slot(c) ==> s.procs[c].parent != p))
  }

  /** Nobody but p takes p out of kwait, and p leaves it only at these three places. */
  lemma WaitStays(s: State, step: Step, p: int)
    requires Inv(s) && Enabled(s, step) && Slot(p) && InWait(s.procs[p].pc, p)
    ensures var t := Apply(s, step);
      Sized(t) && (InWait(t.procs[p].pc, p) || step == WaitScan(p) || step == WaitCopyFails(p) || step == WaitEnd(p))
  {
    hide Inv;
    SlotFine(s, p);
    if Actor(step) != p { MovesItself(s, step, p); }
  }

  lemma LeavesWait(s: State, step: Step, p: int)
    requires Inv(s) && KidsOk(s) && Enabled(s, step) && Slot(p) && InWait(s.procs[p].pc, p)
    requires Sized(Apply(s, step)) && !InWait(Apply(s, step).procs[p].pc, p)
    ensures WaitReturns(s, Apply(s, step), p)
  {
    hide Inv;
    WaitStays(s, step, p);
    var t := Apply(s, step);
    if step.WaitEnd? {
      WaitDecides(s, p);
    } else {
      ChildIsOther(s, p);
      var c := s.procs[p].pc.i;
      assert s.procs[c].parent == p && s.procs[c].state == ZOMBIE;
    }
  }

  /** Nobody is its own parent. */
  lemma ChildIsOther(s: State, p: int)
    requires Inv(s) && Slot(p)
    ensures s.procs[p].parent != p
  {
    assert LinkOk(s, p);
  }

  lemma WaitBegins(run: seq<State>, a: nat, p: int)
    requires Takes(run, a, WaitBegin(p))
    ensures Slot(p) && Sized(run[a + 1]) && InWait(run[a + 1].procs[p].pc, p)
  {
  }

  /**
    kwait returns only with a child reaped and its status, with a child whose status could not be
    copied out, because the caller is killed, or because it has no child; otherwise it is still waiting.
   */
  lemma {:induction false} WaitReturnsForReason(run: seq<State>, a: nat, k: nat, p: int)
    requires IsRun(run) && Takes(run, a, WaitBegin(p)) && a < k < |run|
    ensures Sized(run[k])
    ensures InWait(run[k].procs[p].pc, p) || exists j :: a < j < k && WaitReturns(run[j], run[j + 1], p)
  {
    hide Inv, Apply, Enabled, Init, WaitReturns;
    InvSized(run, k);
    WaitBegins(run, a, p);
    if k > a + 1 {
      WaitReturnsForReason(run, a, k - 1, p);
      if InWait(run[k - 1].procs[p].pc, p) && !InWait(run[k].procs[p].pc, p) {
        var step := RunStep(run, k - 1);
        RunKeepsKids(run, k - 1);
        LeavesWait(run[k - 1], step, p);
      }
    }
  }

  /** A child that is on its way out of its kernel stack delays the scan by one step; then kwait reaps it. */
  lemma ZombieIsReaped(s: State, p: int)
    requires Inv(s) && Sized(s) && Runs(s, p) && s.procs[p].pc.Scanning? && Slot(s.procs[p].pc.i)
    requires s.procs[s.procs[p].pc.i].parent == p && s.procs[s.procs[p].pc.i].state == ZOMBIE
    ensures var c := s.procs[p].pc.i;
      && (s.procs[c].pc == Dying ==> Enabled(s, LeaveStack(c)))
      && var s1 := if s.procs[c].pc == Dying then Apply(s, LeaveStack(c)) else s;
      && Enabled(s1, WaitScan(p)) && Sized(Apply(s1, WaitScan(p)))
      && Apply(s1, WaitScan(p)).reaped == s.reaped + [s.procs[c].pid]
      && Apply(s1, WaitScan(p)).procs[c] == FREE_PROC && Apply(s1, WaitScan(p)).waitLock == NONE
  {
    hide Inv;
    SlotFine(s, s.procs[p].pc.i);
    ChildIsOther(s, p);
  }

  // ---------------------------------------------------------------- sleep and wakeup

  /** sleep() blocks exactly if no wakeup has come since the process registered. */
  lemma SleepBlocks(s: State, p: int)
    requires Inv(s) && Enabled(s, SleepCall(p))
    ensures var c, t := s.procs[p].pc.c, Apply(s, SleepCall(p));
      && Sized(t) && (s.procs[p].chan == NoChan || s.procs[p].chan == c)
      && (t.procs[p].state == SLEEPING && t.procs[p].pc == Asleep(c) <==> s.procs[p].chan == c)
      && (t.procs[p].state == RUNNING && t.procs[p].pc == Woken(c) <==> s.procs[p].chan == NoChan)
  {
    hide Inv;
    SlotFine(s, p);
  }

  /** A woken waiter that is scheduled takes a lock it finds free. */
  lemma WokenTakesLock(s: State, p: int, l: int)
    requires Inv(s) && Slot(p) && s.procs[p].state == RUNNABLE && s.procs[p].pc == Asleep(Lock(l))
    requires 0 <= l < NLOCK && !s.locks[l].locked && s.locks[l].spin == NONE
    ensures Enabled(s, Dispatch(p)) && var s1 := Apply(s, Dispatch(p));
      Enabled(s1, SleepReturns(p)) && var s2 := Apply(s1, SleepReturns(p));
      Enabled(s2, AcquireSleep(p, l)) && var s3 := Apply(s2, AcquireSleep(p, l));
      Sized(s3) && s3.locks[l].locked && s3.locks[l].owner == p && s3.procs[p].pc == User
  {
  }

  /** consoleread takes one byte if there is one, and registers otherwise. */
  lemma ReadOutcome(s: State, p: int)
    requires Inv(s) && Enabled(s, ConsoleRead(p))
    ensures var t, some := Apply(s, ConsoleRead(p)), s.consR < s.consW;
      && Sized(t) && t.consW == s.consW && t.consW - t.consR == s.consW - s.consR - (if some then 1 else 0)
      && (t.procs[p].pc == User <==> some)
      && (t.procs[p].pc == Registered(Console) && t.procs[p].chan == Console <==> !some)
  {
    hide SlotOk, LinkOk, ForkOk, ExitOk, WaitsForReason, PidsOk;
  }

  // ---------------------------------------------------------------- exit status

  /** Process pid called kexit(status). */
  ghost predicate ExitedWith(s: State, pid: int, status: int) {
    |s.exited| == |s.statuses| && exists e :: 0 <= e < |s.exited| && s.exited[e] == pid && s.statuses[e] == status
  }

  ghost predicate StatusOk(s: State) {
    && Sized(s) && |s.statuses| == |s.exited| && |s.delivered| == |s.reaped|
    && (forall i :: Slot(i) && s.procs[i].state == ZOMBIE ==> ExitedWith(s, s.procs[i].pid, s.procs[i].xstate))
    && (forall r :: 0 <= r < |s.reaped| ==> ExitedWith(s, s.reaped[r], s.delivered[r]))
  }

  lemma HistoryGrows(s: State, step: Step)
    requires Enabled(s, step) && |s.statuses| == |s.exited|
    ensures var t := Apply(s, step); s.exited <= t.exited && s.statuses <= t.statuses && |t.statuses| == |t.exited|
  {
    if !TreeStep(step) { hide Apply, Enabled; QuietHistory(s, step); }
  }

  /** A status once recorded stays. */
  lemma ExitedStays(s: State, step: Step, pid: int, status: int)
    requires Enabled(s, step) && ExitedWith(s, pid, status)
    ensures ExitedWith(Apply(s, step), pid, status)
  {
    HistoryGrows(s, step);
    var t := Apply(s, step);
    hide Apply, Enabled;
    var e :| 0 <= e < |s.exited| && s.exited[e] == pid && s.statuses[e] == status;
    assert t.exited[e] == pid && t.statuses[e] == status;
  }

  /** A zombie keeps its pid and status; a new one has just stored its status. */
  lemma ZombieKeepsStatus(s: State, step: Step, i: int)
    requires Inv(s) && |s.statuses| == |s.exited| && Enabled(s, step) && Slot(i)
    ensures var t := Apply(s, step);
      && Sized(t)
      && (t.procs[i].state == ZOMBIE ==>
            ExitedWith(t, t.procs[i].pid, t.procs[i].xstate) ||
            (s.procs[i].state == ZOMBIE && t.procs[i].pid == s.procs[i].pid && t.procs[i].xstate == s.procs[i].xstate))
  {
    hide Inv, Apply, Enabled, ExitedWith;
    if !TreeStep(step) { Quiet(s, step, i); }
    else if step.ExitZombie? && step.p == i { NewZombie(s, i, step.status); }
    else { OldZombie(s, step, i); }
  }

  lemma NewZombie(s: State, p: int, status: int)
    requires Enabled(s, ExitZombie(p, status)) && |s.statuses| == |s.exited|
    ensures var t := Apply(s, ExitZombie(p, status));
      Sized(t) && ExitedWith(t, t.procs[p].pid, t.procs[p].xstate)
  {
    var t, e := Apply(s, ExitZombie(p, status)), |s.exited|;
    assert t.exited[e] == s.procs[p].pid && t.statuses[e] == status;
  }

  lemma ExitKeepsZombie(s: State, step: Step, i: int)
    requires Enabled(s, step) && TreeStep(step) && !ForkStep(step) && Slot(i) && !(step.ExitZombie? && step.p == i)
    ensures var t := Apply(s, step);
      && Sized(t)
      && (t.procs[i].state == ZOMBIE ==>
            s.procs[i].state == ZOMBIE && t.procs[i].pid == s.procs[i].pid && t.procs[i].xstate == s.procs[i].xstate)
  {
  }

  lemma OldZombie(s: State, step: Step, i: int)
    requires Inv(s) && Enabled(s, step) && TreeStep(step) && Slot(i) && !(step.ExitZombie? && step.p == i)
    ensures var t := Apply(s, step);
      && Sized(t)
      && (t.procs[i].state == ZOMBIE ==>
            s.procs[i].state == ZOMBIE && t.procs[i].pid == s.procs[i].pid && t.procs[i].xstate == s.procs[i].xstate)
  {
    hide Inv;
    if !ForkStep(step) { hide Apply, Enabled; ExitKeepsZombie(s, step, i); }
    else if step.ForkFails? || step.StartChild? { ForksFine(s, step.p); }
  }

  lemma StepStatus(s: State, step: Step)
    requires Inv(s) && StatusOk(s) && Enabled(s, step)
    ensures StatusOk(Apply(s, step))
  {
    hide Inv, ExitedWith;
    var t := Apply(s, step);
    SameLengths(s, step);
    forall i | Slot(i) && t.procs[i].state == ZOMBIE ensures ExitedWith(t, t.procs[i].pid, t.procs[i].xstate) {
      ZombieKeepsStatus(s, step, i);
      if s.procs[i].state == ZOMBIE { ExitedStays(s, step, s.procs[i].pid, s.procs[i].xstate); }
    }
    forall r | 0 <= r < |t.reaped| ensures ExitedWith(t, t.reaped[r], t.delivered[r]) {
      if r < |s.reaped| {
        ExitedStays(s, step, s.reaped[r], s.delivered[r]);
      } else {
        var c := s.procs[step.p].pc.i;
        ExitedStays(s, step, s.procs[c].pid, s.procs[c].xstate);
      }
    }
  }

  lemma SameLengths(s: State, step: Step)
    requires Enabled(s, step) && |s.statuses| == |s.exited| && |s.delivered| == |s.reaped|
    ensures var t := Apply(s, step); Sized(t) && |t.statuses| == |t.exited| && |t.delivered| == |t.reaped|
    ensures |s.reaped| < |Apply(s, step).reaped| ==> step.WaitScan?
  {
    if !TreeStep(step) { hide Apply, Enabled; QuietHistory(s, step); }
  }

  /** Every status kwait delivers is the one the reaped process gave to kexit. */
  lemma {:induction false} DeliversStatus(run: seq<State>, k: nat)
    requires IsRun(run) && k < |run|
    ensures StatusOk(run[k])
  {
    hide Inv, Apply, Enabled;
    if k > 0 {
      DeliversStatus(run, k - 1);
      var step := RunStep(run, k - 1);
      StepStatus(run[k - 1], step);
    }
  }

  // ---------------------------------------------------------------- kfork, kkill

  /** The new process of a kfork in progress keeps its pid. */
  lemma ForkKeepsPid(s: State, step: Step, p: int, np: int)
    requires Inv(s) && Enabled(s, step) && Slot(p) && Slot(np) && IsFork(s.procs[p].pc) && s.procs[p].pc.np == np
    requires Sized(Apply(s, step)) && IsFork(Apply(s, step).procs[p].pc)
    ensures Apply(s, step).procs[np].pid == s.procs[np].pid && Apply(s, step).procs[p].pc.np == np
  {
    hide Inv, Apply, Enabled;
    if TreeStep(step) { TreeForkKeepsPid(s, step, p, np); } else { Quiet(s, step, p); Quiet(s, step, np); }
  }

  lemma TreeForkKeepsPid(s: State, step: Step, p: int, np: int)
    requires Inv(s) && Enabled(s, step) && Slot(p) && Slot(np) && IsFork(s.procs[p].pc) && s.procs[p].pc.np == np
    requires Sized(Apply(s, step)) && IsFork(Apply(s, step).procs[p].pc) && TreeStep(step)
    ensures Apply(s, step).procs[np].pid == s.procs[np].pid && Apply(s, step).procs[p].pc.np == np
  {
    hide Inv;
    ForksFine(s, p);
    if !ForkStep(step) {
      hide Apply, Enabled;
      SlotFine(s, p);
      KeepsPid(s, step, p);
      KeepsPid(s, step, np);
    } else if step.ForkFails? && step.p != p { OneForker(s, p, step.p); }
  }

  /** kexit and kwait change no pid but that of a zombie they reap, and start no fork. */
  lemma KeepsPid(s: State, step: Step, q: int)
    requires Enabled(s, step) && TreeStep(step) && !ForkStep(step) && Slot(q) && s.procs[q].state != ZOMBIE
    ensures var t := Apply(s, step);
      Sized(t) && t.procs[q].pid == s.procs[q].pid && (IsFork(t.procs[q].pc) ==> t.procs[q].pc == s.procs[q].pc)
  {
  }

  lemma OneForker(s: State, p: int, o: int)
    requires Inv(s) && Slot(p) && Slot(o) && p != o && IsFork(s.procs[p].pc) && IsFork(s.procs[o].pc)
    ensures s.procs[p].pc.np != s.procs[o].pc.np
  {
    assert ForkOk(s, p);
  }

  lemma ForkBegins(run: seq<State>, a: nat, p: int, np: int)
    requires Takes(run, a, AllocChild(p, np))
    ensures Slot(p) && Slot(np) && p != np && Sized(run[a + 1]) && run[a + 1].procs[p].pc == Forking(np)
    ensures run[a + 1].procs[np].pid == run[a].nextpid
  {
  }

  lemma {:induction false} ForkingKeeps(run: seq<State>, a: nat, k: nat, p: int, np: int)
    requires IsRun(run) && Takes(run, a, AllocChild(p, np)) && a < k < |run|
    requires Slot(p) && forall j :: a < j <= k ==> Sized(run[j]) && IsFork(run[j].procs[p].pc)
    ensures Sized(run[k]) && Slot(np) && IsFork(run[k].procs[p].pc) && run[k].procs[p].pc.np == np
    ensures run[k].procs[np].pid == run[a].nextpid
  {
    hide Inv, Apply, Enabled, Init;
    ForkBegins(run, a, p, np);
    if k > a + 1 {
      ForkingKeeps(run, a, k - 1, p, np);
      var step := RunStep(run, k - 1);
      ForkKeepsPid(run[k - 1], step, p, np);
    }
  }

  /** kfork: the child is ready to run, is p's child, and has a pid no process had before. */
  lemma ForkStartsChild(run: seq<State>, a: nat, k: nat, p: int, np: int)
    requires IsRun(run) && Takes(run, a, AllocChild(p, np)) && a < k && Takes(run, k, StartChild(p))
    requires Slot(p) && forall j :: a < j <= k ==> Sized(run[j]) && IsFork(run[j].procs[p].pc)
    ensures var t := run[k + 1];
      && Sized(t) && t.procs[np].state == RUNNABLE && t.procs[np].pc == User && t.procs[np].parent == p
      && t.procs[p].pc == User && t.procs[np].pid == run[a].nextpid
      && (forall i :: Slot(i) && run[a].procs[i].state != UNUSED ==> run[a].procs[i].pid < t.procs[np].pid)
      && (forall e :: 0 <= e < |run[a].exited| ==> run[a].exited[e] < t.procs[np].pid)
  {
    ForkingKeeps(run, a, k, p, np);
    RunKeepsInv(run, a);
    RunKeepsInv(run, k);
    assert ForkOk(run[k], p);
    forall i | Slot(i) && run[a].procs[i].state != UNUSED ensures run[a].procs[i].pid < run[a].nextpid {
      assert SlotOk(run[a], i);
    }
  }

  lemma KillBegins(run: seq<State>, a: nat, q: int)
    requires Takes(run, a, Kill(q))
    ensures Slot(q) && Sized(run[a + 1]) && run[a + 1].procs[q].killed && run[a + 1].procs[q].state != SLEEPING
  {
  }

  /** The kill of a process lasts as long as the process, and it does not sleep through it. */
  lemma {:induction false} KillLasts(run: seq<State>, a: nat, k: nat, q: int)
    requires IsRun(run) && Takes(run, a, Kill(q)) && a < k < |run|
    requires Slot(q) && forall j :: a < j <= k ==> Sized(run[j]) && run[j].procs[q].state != UNUSED
    ensures Sized(run[k]) && Sized(run[a + 1]) && run[k].procs[q].killed && run[a + 1].procs[q].state != SLEEPING
  {
    hide Inv, Apply, Enabled, Init;
    KillBegins(run, a, q);
    if k > a + 1 {
      KillLasts(run, a, k - 1, q);
      var step := RunStep(run, k - 1);
      KilledStays(run[k - 1], step, q);
    }
  }

  lemma KilledStays(s: State, step: Step, q: int)
    requires Enabled(s, step) && Slot(q) && s.procs[q].killed && Sized(Apply(s, step))
    requires Apply(s, step).procs[q].state != UNUSED
    ensures Apply(s, step).procs[q].killed
  {
    if !TreeStep(step) { hide Apply, Enabled; Quiet(s, step, q); }
    else if ForkStep(step) { hide Apply, Enabled; ForkKeepsKilled(s, step, q); }
  }

  lemma ForkKeepsKilled(s: State, step: Step, q: int)
    requires Enabled(s, step) && ForkStep(step) && Slot(q) && s.procs[q].killed && Sized(Apply(s, step))
    requires Apply(s, step).procs[q].state != UNUSED
    ensures Apply(s, step).procs[q].killed
  {
  }
}
