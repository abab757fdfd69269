/** Every step keeps the process tree, the pids and the sleep/wakeup protocol consistent. */
module ProcProof {
  import opened Params
  import opened ProcMachine

  // ---------------------------------------------------------------- steps that move no process in the tree

  /** Same parent and pid, and alive (or not) as before. */
  predicate Soft(q: Proc, q': Proc) {
    q'.parent == q.parent && q'.pid == q.pid && (q'.state == q.state || (Live(q) && Live(q')))
  }

  ghost predicate SoftStep(s: State, s': State) {
    && Sized(s) && Sized(s')
    && s'.nextpid == s.nextpid && s'.exited == s.exited && s'.reaped == s.reaped
    && (forall i :: Slot(i) ==> Soft(s.procs[i], s'.procs[i]))
    && (forall i :: Slot(i) && IsFork(s'.procs[i].pc) ==> s'.procs[i].pc == s.procs[i].pc)
  }

  lemma SoftKeeps(s: State, s': State)
    requires Inv(s) && SoftStep(s, s')
    ensures forall i {:trigger LinkOk(s', i)} :: Slot(i) ==> LinkOk(s', i)
    ensures forall i {:trigger ForkOk(s', i)} :: Slot(i) ==> ForkOk(s', i)
    ensures PidsOk(s')
  {
    forall i | Slot(i) ensures LinkOk(s', i) { assert LinkOk(s, i); }
    forall i | Slot(i) ensures ForkOk(s', i) { assert ForkOk(s, i); }
    SoftKeepsPids(s, s');
  }

  lemma SoftKeepsPids(s: State, s': State)
    requires Sized(s) && PidsOk(s) && SoftStep(s, s')
    ensures PidsOk(s')
  {
    forall i | Slot(i) ensures Soft(s.procs[i], s'.procs[i]) {}
  }

  // ---------------------------------------------------------------- frames

  /** No parent changes, and nobody becomes a zombie. */
  ghost predicate SameTree(s: State, s': State) {
    && Sized(s) && Sized(s')
    && (forall c :: Slot(c) ==> s'.procs[c].parent == s.procs[c].parent && (s'.procs[c].state == ZOMBIE ==>
      s.procs[c].state == ZOMBIE))
  }

  /** Nobody registers on a process. */
  ghost predicate NoNewChild(s: State, s': State) {
    Sized(s) && Sized(s') && forall j :: Slot(j) ==> s'.procs[j].chan == s.procs[j].chan || !s'.procs[j].chan.Child?
  }

  lemma KeepSlot(s: State, s': State, i: int)
    requires Sized(s) && Sized(s') && Slot(i) && SlotOk(s, i) && s'.procs[i] == s.procs[i]
    requires s'.nextpid >= s.nextpid && (s'.waitLock == i <==> s.waitLock == i)
    requires s.procs[i].pc.Releasing? ==> s'.locks[s.procs[i].pc.k].spin == i
    ensures SlotOk(s', i)
  {
  }

  lemma KeepExit(s: State, s': State, i: int)
    requires SameTree(s, s') && NoNewChild(s, s') && Slot(i) && ExitOk(s, i)
    requires s'.procs[i].pc == s.procs[i].pc || !HoldsWait(s'.procs[i].pc)
    ensures ExitOk(s', i)
  {
  }

  lemma KeepWait(s: State, s': State, q: int)
    requires SameTree(s, s') && Slot(q) && WaitsForReason(s, q)
    requires s'.procs[q].chan == s.procs[q].chan
    requires s.procs[q].chan.Child? && q == INIT && InitWakePending(s, q) ==> InitWakePending(s', q)
    requires s.procs[q].chan.Lock? ==> var k := s.procs[q].chan.k;
      (s.locks[k].locked ==> s'.locks[k].locked) && (LockWakePending(s, k, q) ==> LockWakePending(s', k, q))
    requires s.procs[q].chan == Console ==>
      && (s.consR == s.consW ==> s'.consR == s'.consW)
      && (s.consLock == INTR && s.intrAt <= q ==> s'.consLock == INTR && s'.intrAt <= q)
    ensures WaitsForReason(s', q)
  {
  }

  /** One process changes, softly, without touching wait_lock's protocol or registering anywhere new. */
  ghost predicate Moves(s: State, s': State, p: int) {
    && Sized(s) && Sized(s') && Slot(p)
    && s' == s.(procs := s.procs[p := s'.procs[p]])
    && Soft(s.procs[p], s'.procs[p]) && s'.procs[p].chan == s.procs[p].chan
    && (s'.procs[p].pc == s.procs[p].pc || (Loose(s.procs[p].pc) && Loose(s'.procs[p].pc)))
  }

  /** A point of the code outside fork, exit, the scans and the wakeups. */
  predicate Loose(pc: Pc) { !HoldsWait(pc) && !pc.Releasing? && !IsFork(pc) }

  lemma MovesKeeps(s: State, s': State, p: int)
    requires Inv(s) && Moves(s, s', p) && SlotOk(s', p)
    ensures Inv(s')
  {
    SoftKeeps(s, s');
    hide PidsOk, LinkOk, ForkOk;
    forall i {:trigger SlotOk(s', i)} | Slot(i) ensures SlotOk(s', i) {
      if i != p { assert SlotOk(s, i); KeepSlot(s, s', i); }
    }
    assert SlotOk(s, p);
    forall i {:trigger ExitOk(s', i)} | Slot(i) ensures ExitOk(s', i) { assert ExitOk(s, i); KeepExit(s, s', i); }
    forall i {:trigger WaitsForReason(s', i)} | Slot(i) ensures WaitsForReason(s', i) {
      assert WaitsForReason(s, i); KeepWait(s, s', i);
    }
  }

  lemma StepDispatch(s: State, p: int)
    requires Inv(s) && Enabled(s, Dispatch(p))
    ensures Inv(Apply(s, Dispatch(p)))
  {
    assert SlotOk(s, p);
    MovesKeeps(s, Apply(s, Dispatch(p)), p);
  }

  lemma StepYield(s: State, p: int)
    requires Inv(s) && Enabled(s, Yield(p))
    ensures Inv(Apply(s, Yield(p)))
  {
    assert SlotOk(s, p);
    MovesKeeps(s, Apply(s, Yield(p)), p);
  }

  lemma StepSleepCall(s: State, p: int)
    requires Inv(s) && Enabled(s, SleepCall(p))
    ensures Inv(Apply(s, SleepCall(p)))
  {
    assert SlotOk(s, p);
    MovesKeeps(s, Apply(s, SleepCall(p)), p);
  }

  lemma StepSleepReturns(s: State, p: int)
    requires Inv(s) && Enabled(s, SleepReturns(p))
    ensures Inv(Apply(s, SleepReturns(p)))
  {
    assert SlotOk(s, p);
    MovesKeeps(s, Apply(s, SleepReturns(p)), p);
  }

  lemma StepLeaveStack(s: State, p: int)
    requires Inv(s) && Enabled(s, LeaveStack(p))
    ensures Inv(Apply(s, LeaveStack(p)))
  {
    assert SlotOk(s, p);
    MovesKeeps(s, Apply(s, LeaveStack(p)), p);
  }

  lemma StepConsoleGivesUp(s: State, p: int)
    requires Inv(s) && Enabled(s, ConsoleGivesUp(p))
    ensures Inv(Apply(s, ConsoleGivesUp(p)))
  {
    assert SlotOk(s, p);
    MovesKeeps(s, Apply(s, ConsoleGivesUp(p)), p);
  }

  lemma StepKill(s: State, q: int)
    requires Inv(s) && Enabled(s, Kill(q))
    ensures Inv(Apply(s, Kill(q)))
  {
    assert SlotOk(s, q);
    MovesKeeps(s, Apply(s, Kill(q)), q);
  }

  // ---------------------------------------------------------------- wakeup

  /** wakeup(c) passes slot j: at most that slot changes. */
  ghost predicate Wakes(s: State, s': State, j: int, c: Chan) {
    Sized(s) && Slot(j) && s' == s.(procs := Wake(s.procs, j, c)) && c != NoChan && s.procs[j].pc != Dying
  }

  /** Waking one slot keeps the invariant: who is woken need not wait any more. */
  lemma WakesKeeps(s: State, s': State, j: int, c: Chan)
    requires Inv(s) && Wakes(s, s', j, c)
    ensures Inv(s')
  {
    hide PidsOk, LinkOk, ForkOk, ExitOk;
    SoftKeeps(s, s');
    assert SlotOk(s, j);
    forall i {:trigger SlotOk(s', i)} | Slot(i) ensures SlotOk(s', i) {
      if i != j { assert SlotOk(s, i); KeepSlot(s, s', i); }
    }
    forall i {:trigger ExitOk(s', i)} | Slot(i) ensures ExitOk(s', i) { assert ExitOk(s, i); KeepExit(s, s', i); }
    hide SlotOk, WaitsForReason;
    forall i {:trigger WaitsForReason(s', i)} | Slot(i) ensures WaitsForReason(s', i) {
      assert WaitsForReason(s, i);
      WakesKeepsWait(s, s', j, c, i);
    }
  }

  lemma WakesKeepsWait(s: State, s': State, j: int, c: Chan, i: int)
    requires Wakes(s, s', j, c) && Slot(i) && WaitsForReason(s, i)
    ensures WaitsForReason(s', i)
  {
    if s'.procs[i].chan == s.procs[i].chan { KeepWait(s, s', i); }
  }

  /** p, which holds wait_lock, moves on within kexit or kwait. */
  ghost predicate Advances(s: State, s': State, p: int) {
    && Sized(s) && Sized(s') && Slot(p) && s.waitLock == p && s' == At(s, p, s'.procs[p].pc)
    && HoldsWait(s.procs[p].pc) && HoldsWait(s'.procs[p].pc)
  }

  lemma AdvancesKeeps(s: State, s': State, p: int)
    requires Inv(s) && Advances(s, s', p) && SlotOk(s', p) && ExitOk(s', p)
    requires s.procs[INIT].chan.Child? && InitWakePending(s, INIT) ==> InitWakePending(s', INIT)
    ensures Inv(s')
  {
    hide PidsOk, LinkOk, ForkOk;
    SoftKeeps(s, s');
    forall i {:trigger SlotOk(s', i)} | Slot(i) ensures SlotOk(s', i) {
      if i != p { assert SlotOk(s, i); KeepSlot(s, s', i); }
    }
    forall i {:trigger ExitOk(s', i)} | Slot(i) ensures ExitOk(s', i) {
      if i != p { assert ExitOk(s, i); KeepExit(s, s', i); }
    }
    forall i {:trigger WaitsForReason(s', i)} | Slot(i) ensures WaitsForReason(s', i) {
      assert WaitsForReason(s, i); KeepWait(s, s', i);
    }
  }

  lemma StepExitWakeInit(s: State, p: int)
    requires Inv(s) && Enabled(s, ExitWakeInit(p))
    ensures Inv(Apply(s, ExitWakeInit(p)))
  {
    hide PidsOk, LinkOk, ForkOk, WaitsForReason;
    var pc := s.procs[p].pc;
    assert SlotOk(s, p) && ExitOk(s, p);
    if pc.j == NPROC {
      AdvancesKeeps(s, Apply(s, ExitWakeInit(p)), p);
    } else {
      WakesKeeps(s, s.(procs := Wake(s.procs, pc.j, Child(INIT))), pc.j, Child(INIT));
      InitWakeMovesOn(s.(procs := Wake(s.procs, pc.j, Child(INIT))), p);
    }
  }

  lemma InitWakeMovesOn(s: State, p: int)
    requires Inv(s) && Slot(p) && s.procs[p].pc.ExitWakesInit? && Slot(s.procs[p].pc.j) && s.procs[p].state == RUNNING
    requires s.procs[s.procs[p].pc.j].chan != Child(INIT)
    ensures Inv(At(s, p, ExitWakesInit(s.procs[p].pc.i, s.procs[p].pc.j + 1)))
  {
    assert SlotOk(s, p) && ExitOk(s, p) && SlotOk(s, INIT);
    AdvancesKeeps(s, At(s, p, ExitWakesInit(s.procs[p].pc.i, s.procs[p].pc.j + 1)), p);
  }

  lemma StepExitWakeParent(s: State, p: int)
    requires Inv(s) && Enabled(s, ExitWakeParent(p))
    ensures Inv(Apply(s, ExitWakeParent(p)))
  {
    var j := s.procs[p].pc.j;
    var c := Child(s.procs[p].parent);
    assert SlotOk(s, p) && ExitOk(s, p);
    var m := s.(procs := Wake(s.procs, j, c));
    WakesKeeps(s, m, j, c);
    assert SlotOk(m, p) && ExitOk(m, p);
    AdvancesKeeps(m, Apply(s, ExitWakeParent(p)), p);
  }

  lemma StepReleaseWake(s: State, p: int)
    requires Inv(s) && Enabled(s, ReleaseWake(p))
    ensures Inv(Apply(s, ReleaseWake(p)))
  {
    hide PidsOk, LinkOk, ForkOk, ExitOk;
    var s' := Apply(s, ReleaseWake(p));
    var k, j := s.procs[p].pc.k, s.procs[p].pc.j;
    assert SlotOk(s, p);
    if j == NPROC {
      ReleaseEnds(s, s', p);
    } else {
      var m := s.(procs := Wake(s.procs, j, Lock(k)));
      WakesKeeps(s, m, j, Lock(k));
      assert SlotOk(m, p);
      ReleaseMovesOn(m, s', p);
    }
  }

  lemma ReleaseMovesOn(s: State, s': State, p: int)
    requires Inv(s) && Slot(p) && s.procs[p].pc.Releasing? && Slot(s.procs[p].pc.j) && s.procs[p].state == RUNNING
    requires s' == At(s, p, Releasing(s.procs[p].pc.k, s.procs[p].pc.j + 1))
    requires s.procs[s.procs[p].pc.j].chan != Lock(s.procs[p].pc.k)
    ensures Inv(s')
  {
    hide PidsOk, LinkOk, ForkOk, ExitOk;
    SoftKeeps(s, s');
    assert SlotOk(s, p) && SlotOk(s', p);
    forall i {:trigger SlotOk(s', i)} | Slot(i) ensures SlotOk(s', i) {
      if i != p { assert SlotOk(s, i); KeepSlot(s, s', i); }
    }
    forall i {:trigger ExitOk(s', i)} | Slot(i) ensures ExitOk(s', i) { assert ExitOk(s, i); KeepExit(s, s', i); }
    forall i {:trigger WaitsForReason(s', i)} | Slot(i) ensures WaitsForReason(s', i) {
      assert WaitsForReason(s, i); KeepWait(s, s', i);
    }
  }

  lemma ReleaseEnds(s: State, s': State, p: int)
    requires Inv(s) && Slot(p) && s.procs[p].pc.Releasing? && s.procs[p].pc.j == NPROC && s.procs[p].state == RUNNING
    requires var k := s.procs[p].pc.k;
      0 <= k < NLOCK && s' == At(s, p, User).(locks := s.locks[k := s.locks[k].(spin := NONE)])
    ensures Inv(s')
  {
    hide PidsOk, LinkOk, ForkOk, ExitOk;
    SoftKeeps(s, s');
    assert SlotOk(s, p) && SlotOk(s', p);
    forall i {:trigger SlotOk(s', i)} | Slot(i) ensures SlotOk(s', i) {
      if i != p { assert SlotOk(s, i); KeepSlot(s, s', i); }
    }
    forall i {:trigger ExitOk(s', i)} | Slot(i) ensures ExitOk(s', i) { assert ExitOk(s, i); KeepExit(s, s', i); }
    forall i {:trigger WaitsForReason(s', i)} | Slot(i) ensures WaitsForReason(s', i) {
      assert WaitsForReason(s, i); KeepWait(s, s', i);
    }
  }

  lemma StepConsoleWake(s: State)
    requires Inv(s) && Enabled(s, ConsoleWake)
    ensures Inv(Apply(s, ConsoleWake))
  {
    var s' := Apply(s, ConsoleWake);
    var m := if s.intrAt < NPROC then s.(procs := Wake(s.procs, s.intrAt, Console)) else s;
    if s.intrAt < NPROC { WakesKeeps(s, m, s.intrAt, Console); }
    forall i {:trigger SlotOk(s', i)} | Slot(i) ensures SlotOk(s', i) { assert SlotOk(m, i); KeepSlot(m, s', i); }
    forall i {:trigger ExitOk(s', i)} | Slot(i) ensures ExitOk(s', i) { assert ExitOk(m, i); KeepExit(m, s', i); }
    forall i {:trigger WaitsForReason(s', i)} | Slot(i) ensures WaitsForReason(s', i) {
      assert WaitsForReason(m, i); KeepWait(m, s', i);
    }
    SoftKeeps(m, s');
  }

  // ---------------------------------------------------------------- sleep locks and the console

  /** p takes one step of its own; everybody else is as before and keeps its reason to wait. */
  ghost predicate Alone(s: State, s': State, p: int) {
    && Sized(s) && Sized(s') && Slot(p) && |s'.procs| == |s.procs|
    && s'.procs == s.procs[p := s'.procs[p]] && s'.nextpid == s.nextpid
    && s'.exited == s.exited && s'.reaped == s.reaped
    && Soft(s.procs[p], s'.procs[p]) && !IsFork(s'.procs[p].pc)
    && (s'.procs[p].chan == s.procs[p].chan || !s'.procs[p].chan.Child? || s.waitLock == p)
    && (s'.waitLock == s.waitLock || (s.waitLock == NONE && s'.waitLock == p)
        || (s.waitLock == p && s'.waitLock == NONE))
    && s'.consLock == s.consLock && s'.intrAt == s.intrAt && (s.consR == s.consW ==> s'.consR == s'.consW)
    && (forall k :: 0 <= k < NLOCK ==>
      s'.locks[k] == s.locks[k] || LockMoves(s.locks[k], s'.locks[k], s'.procs[p].pc, p, k))
    && !s.procs[p].pc.Releasing? && !s.procs[p].pc.ExitWakesInit?
  }

  /** p takes sleep lock k, or frees it and is about to wake its waiters. */
  predicate LockMoves(l: SleepLock, l': SleepLock, pc: Pc, p: int, k: int) {
    l.spin == NONE && (l.locked ==> l'.locked || (l'.spin == p && pc == Releasing(k, 0)))
  }

  lemma AloneKeeps(s: State, s': State, p: int)
    requires Inv(s) && Alone(s, s', p) && LocksOk(s')
    requires SlotOk(s', p) && ExitOk(s', p) && WaitsForReason(s', p)
    ensures Inv(s')
  {
    SoftKeeps(s, s');
    assert SlotOk(s, p);
    forall i {:trigger SlotOk(s', i)} | Slot(i) ensures SlotOk(s', i) {
      if i != p { assert SlotOk(s, i); KeepSlot(s, s', i); }
    }
    forall i {:trigger ExitOk(s', i)} | Slot(i) ensures ExitOk(s', i) { if i != p { AloneKeepsExit(s, s', p, i); } }
    forall i {:trigger WaitsForReason(s', i)} | Slot(i) ensures WaitsForReason(s', i) {
      if i != p { AloneKeepsWait(s, s', p, i); }
    }
  }

  lemma AloneKeepsExit(s: State, s': State, p: int, i: int)
    requires Inv(s) && Alone(s, s', p) && Slot(i) && i != p
    ensures ExitOk(s', i)
  {
    assert ExitOk(s, i) && SlotOk(s, i);
    if s.waitLock != p { KeepExit(s, s', i); }
  }

  lemma AloneKeepsWait(s: State, s': State, p: int, i: int)
    requires Inv(s) && Alone(s, s', p) && Slot(i) && i != p
    ensures WaitsForReason(s', i)
  {
    assert WaitsForReason(s, i) && SlotOk(s, p);
    match s.procs[i].chan
    case NoChan =>
    case Child(_) => KeepWait(s, s', i);
    case Console => KeepWait(s, s', i);
    case Lock(k) => if s'.locks[k] == s.locks[k] { KeepWait(s, s', i); }
  }

  /** A free sleep lock is taken. */
  lemma StepTakeSleep(s: State, p: int, k: int)
    requires Inv(s) && Enabled(s, AcquireSleep(p, k)) && !s.locks[k].locked
    ensures Inv(Apply(s, AcquireSleep(p, k)))
  {
    hide PidsOk, LinkOk, ForkOk;
    assert SlotOk(s, p) && WaitsForReason(s, p);
    AloneKeeps(s, Apply(s, AcquireSleep(p, k)), p);
  }

  /** A process that finds the sleep lock taken registers on it. */
  lemma StepAwaitSleep(s: State, p: int, k: int)
    requires Inv(s) && Enabled(s, AcquireSleep(p, k)) && s.locks[k].locked
    ensures Inv(Apply(s, AcquireSleep(p, k)))
  {
    hide PidsOk, LinkOk, ForkOk;
    assert SlotOk(s, p) && WaitsForReason(s, p);
    AloneKeeps(s, Apply(s, AcquireSleep(p, k)), p);
  }

  lemma StepAcquireSleep(s: State, p: int, k: int)
    requires Inv(s) && Enabled(s, AcquireSleep(p, k))
    ensures Inv(Apply(s, AcquireSleep(p, k)))
  {
    hide Inv, Apply;
    if s.locks[k].locked { StepAwaitSleep(s, p, k); } else { StepTakeSleep(s, p, k); }
  }

  lemma StepReleaseSleep(s: State, p: int, k: int)
    requires Inv(s) && Enabled(s, ReleaseSleep(p, k))
    ensures Inv(Apply(s, ReleaseSleep(p, k)))
  {
    assert SlotOk(s, p) && WaitsForReason(s, p);
    AloneKeeps(s, Apply(s, ReleaseSleep(p, k)), p);
  }

  lemma StepConsoleRead(s: State, p: int)
    requires Inv(s) && Enabled(s, ConsoleRead(p))
    ensures Inv(Apply(s, ConsoleRead(p)))
  {
    hide PidsOk, LinkOk, ForkOk, ExitOk;
    assert SlotOk(s, p) && WaitsForReason(s, p);
    AloneKeeps(s, Apply(s, ConsoleRead(p)), p);
  }

  lemma StepConsoleInput(s: State, n: nat)
    requires Inv(s) && Enabled(s, ConsoleInput(n))
    ensures Inv(Apply(s, ConsoleInput(n)))
  {
    var s' := Apply(s, ConsoleInput(n));
    SoftKeeps(s, s');
    forall i {:trigger SlotOk(s', i)} | Slot(i) ensures SlotOk(s', i) { assert SlotOk(s, i); KeepSlot(s, s', i); }
    forall i {:trigger ExitOk(s', i)} | Slot(i) ensures ExitOk(s', i) { assert ExitOk(s, i); KeepExit(s, s', i); }
    forall i {:trigger WaitsForReason(s', i)} | Slot(i) ensures WaitsForReason(s', i) {
      assert WaitsForReason(s, i);
      if s.procs[i].chan != Console { KeepWait(s, s', i); }
    }
  }

  // ---------------------------------------------------------------- wait

  lemma StepWaitBegin(s: State, p: int)
    requires Inv(s) && Enabled(s, WaitBegin(p))
    ensures Inv(Apply(s, WaitBegin(p)))
  {
    assert SlotOk(s, p) && WaitsForReason(s, p);
    AloneKeeps(s, Apply(s, WaitBegin(p)), p);
  }

  /** No child to wait for, or killed: kwait returns. */
  lemma WaitGivesUp(s: State, p: int)
    requires Inv(s) && Enabled(s, WaitEnd(p)) && (!s.procs[p].pc.kids || s.procs[p].killed)
    ensures Inv(Apply(s, WaitEnd(p)))
  {
    hide PidsOk, LinkOk, ForkOk;
    assert SlotOk(s, p) && WaitsForReason(s, p) && ExitOk(s, p);
    AloneKeeps(s, Apply(s, WaitEnd(p)), p);
  }

  /** No child is a zombie, as a whole scan with wait_lock held has shown: kwait registers. */
  lemma WaitRegisters(s: State, p: int)
    requires Inv(s) && Enabled(s, WaitEnd(p)) && s.procs[p].pc.kids && !s.procs[p].killed
    ensures Inv(Apply(s, WaitEnd(p)))
  {
    hide PidsOk, LinkOk, ForkOk;
    assert SlotOk(s, p) && WaitsForReason(s, p) && ExitOk(s, p);
    AloneKeeps(s, Apply(s, WaitEnd(p)), p);
  }

  lemma StepWaitEnd(s: State, p: int)
    requires Inv(s) && Enabled(s, WaitEnd(p))
    ensures Inv(Apply(s, WaitEnd(p)))
  {
    hide Inv, Apply;
    if !s.procs[p].pc.kids || s.procs[p].killed { WaitGivesUp(s, p); } else { WaitRegisters(s, p); }
  }

  lemma StepWaitCopyFails(s: State, p: int)
    requires Inv(s) && Enabled(s, WaitCopyFails(p))
    ensures Inv(Apply(s, WaitCopyFails(p)))
  {
    assert SlotOk(s, p) && WaitsForReason(s, p);
    AloneKeeps(s, Apply(s, WaitCopyFails(p)), p);
  }

  lemma StepExitBegin(s: State, p: int)
    requires Inv(s) && Enabled(s, ExitBegin(p))
    ensures Inv(Apply(s, ExitBegin(p)))
  {
    assert SlotOk(s, p) && WaitsForReason(s, p);
    AloneKeeps(s, Apply(s, ExitBegin(p)), p);
  }

  // ---------------------------------------------------------------- fork

  /** The pieces of the invariant that a step changing the tree must re-establish. */
  ghost predicate Links(s: State)
    requires Sized(s)
  {
    forall i {:trigger LinkOk(s, i)} :: Slot(i) ==> LinkOk(s, i)
  }

  ghost predicate Forks(s: State)
    requires Sized(s)
  {
    forall i {:trigger ForkOk(s, i)} :: Slot(i) ==> ForkOk(s, i)
  }

  ghost predicate Slots(s: State)
    requires Sized(s)
  {
    forall i {:trigger SlotOk(s, i)} :: Slot(i) ==> SlotOk(s, i)
  }

  ghost predicate Exits(s: State)
    requires Sized(s)
  {
    forall i {:trigger ExitOk(s, i)} :: Slot(i) ==> ExitOk(s, i)
  }

  ghost predicate Waits(s: State)
    requires Sized(s)
  {
    forall i {:trigger WaitsForReason(s, i)} :: Slot(i) ==> WaitsForReason(s, i)
  }

  /** No slot comes into use, becomes a zombie or changes its pid. */
  lemma PidsFrame(s: State, s': State)
    requires Sized(s) && Sized(s') && PidsOk(s)
    requires s'.nextpid == s.nextpid && s'.exited == s.exited && s'.reaped == s.reaped
    requires forall i :: Slot(i) && s'.procs[i].state != UNUSED ==>
      && s.procs[i].state != UNUSED && s'.procs[i].pid == s.procs[i].pid
      && (s'.procs[i].state == ZOMBIE <==> s.procs[i].state == ZOMBIE)
    ensures PidsOk(s')
  {
  }

  lemma StepAllocChild(s: State, p: int, np: int)
    requires Inv(s) && Enabled(s, AllocChild(p, np))
    ensures Inv(Apply(s, AllocChild(p, np)))
  {
    AllocChildTree(s, p, np);
    AllocChildFrames(s, p, np);
    AllocKeepsPids(s, p, np);
  }

  lemma AllocChildTree(s: State, p: int, np: int)
    requires Inv(s) && Enabled(s, AllocChild(p, np))
    ensures Links(Apply(s, AllocChild(p, np))) && Forks(Apply(s, AllocChild(p, np)))
  {
    hide PidsOk, ExitOk, WaitsForReason, LocksOk;
    var s' := Apply(s, AllocChild(p, np));
    FreeHasNoForker(s, np);
    assert SlotOk(s, p) && SlotOk(s, np);
    forall i {:trigger LinkOk(s', i)} | Slot(i) ensures LinkOk(s', i) { assert LinkOk(s, i); }
    forall i {:trigger ForkOk(s', i)} | Slot(i) ensures ForkOk(s', i) { assert ForkOk(s, i) && ForkOk(s, p); }
  }

  lemma AllocChildFrames(s: State, p: int, np: int)
    requires Inv(s) && Enabled(s, AllocChild(p, np))
    ensures LocksOk(Apply(s, AllocChild(p, np))) && Slots(Apply(s, AllocChild(p, np)))
    ensures Exits(Apply(s, AllocChild(p, np))) && Waits(Apply(s, AllocChild(p, np)))
  {
    hide PidsOk, LinkOk, ForkOk, ExitOk;
    var s' := Apply(s, AllocChild(p, np));
    assert SlotOk(s, p) && SlotOk(s, np);
    forall i {:trigger SlotOk(s', i)} | Slot(i) ensures SlotOk(s', i) {
      if i != p && i != np { assert SlotOk(s, i); KeepSlot(s, s', i); }
    }
    forall i {:trigger ExitOk(s', i)} | Slot(i) ensures ExitOk(s', i) { assert ExitOk(s, i); KeepExit(s, s', i); }
    forall i {:trigger WaitsForReason(s', i)} | Slot(i) ensures WaitsForReason(s', i) {
      assert WaitsForReason(s, i); KeepWait(s, s', i);
    }
  }

  lemma AllocKeepsPids(s: State, p: int, np: int)
    requires Inv(s) && Enabled(s, AllocChild(p, np))
    ensures PidsOk(Apply(s, AllocChild(p, np)))
  {
    var s' := Apply(s, AllocChild(p, np));
    forall i | Slot(i) && s.procs[i].state != UNUSED ensures s.procs[i].pid < s.nextpid { assert SlotOk(s, i); }
    assert s.nextpid !in s.exited;
  }

  /** Nobody is forking into slot np. */
  ghost predicate NoForker(s: State, np: int)
    requires Sized(s)
  {
    forall o :: Slot(o) && IsFork(s.procs[o].pc) ==> s.procs[o].pc.np != np
  }

  lemma FreeHasNoForker(s: State, np: int)
    requires Inv(s) && Slot(np) && s.procs[np].state != USED
    ensures NoForker(s, np)
  {
    forall o | Slot(o) && IsFork(s.procs[o].pc) ensures s.procs[o].pc.np != np { assert ForkOk(s, o); }
  }

  lemma StepForkFails(s: State, p: int)
    requires Inv(s) && Enabled(s, ForkFails(p))
    ensures Inv(Apply(s, ForkFails(p)))
  {
    assert SlotOk(s, p) && ForkOk(s, p);
    ForkFailsTree(s, p);
    ForkFailsFrames(s, p);
    PidsFrame(s, Apply(s, ForkFails(p)));
  }

  lemma ForkFailsTree(s: State, p: int)
    requires Inv(s) && Enabled(s, ForkFails(p))
    ensures Links(Apply(s, ForkFails(p))) && Forks(Apply(s, ForkFails(p)))
  {
    var s' := Apply(s, ForkFails(p));
    var np := s.procs[p].pc.np;
    assert SlotOk(s, p) && SlotOk(s, np) && ForkOk(s, p);
    forall i {:trigger LinkOk(s', i)} | Slot(i) ensures LinkOk(s', i) { assert LinkOk(s, i); }
    forall i {:trigger ForkOk(s', i)} | Slot(i) ensures ForkOk(s', i) { assert ForkOk(s, i); }
  }

  lemma ForkFailsFrames(s: State, p: int)
    requires Inv(s) && Enabled(s, ForkFails(p))
    ensures LocksOk(Apply(s, ForkFails(p))) && Slots(Apply(s, ForkFails(p)))
    ensures Exits(Apply(s, ForkFails(p))) && Waits(Apply(s, ForkFails(p)))
  {
    hide PidsOk, LinkOk, ExitOk;
    var s' := Apply(s, ForkFails(p));
    var np := s.procs[p].pc.np;
    assert SlotOk(s, p) && SlotOk(s, np) && ForkOk(s, p);
    forall i {:trigger SlotOk(s', i)} | Slot(i) ensures SlotOk(s', i) {
      if i != p && i != np { assert SlotOk(s, i); KeepSlot(s, s', i); }
    }
    forall i {:trigger ExitOk(s', i)} | Slot(i) ensures ExitOk(s', i) { assert ExitOk(s, i); KeepExit(s, s', i); }
    forall i {:trigger WaitsForReason(s', i)} | Slot(i) ensures WaitsForReason(s', i) {
      assert WaitsForReason(s, i); KeepWait(s, s', i);
    }
  }

  lemma StepLinkChild(s: State, p: int)
    requires Inv(s) && Enabled(s, LinkChild(p))
    ensures Inv(Apply(s, LinkChild(p)))
  {
    assert SlotOk(s, p) && ForkOk(s, p);
    LinkChildTree(s, p);
    LinkChildFrames(s, p);
    PidsFrame(s, Apply(s, LinkChild(p)));
  }

  lemma LinkChildTree(s: State, p: int)
    requires Inv(s) && Enabled(s, LinkChild(p))
    ensures Links(Apply(s, LinkChild(p))) && Forks(Apply(s, LinkChild(p)))
  {
    hide PidsOk, ExitOk, WaitsForReason, LocksOk;
    var s' := Apply(s, LinkChild(p));
    var np := s.procs[p].pc.np;
    assert SlotOk(s, p) && SlotOk(s, np) && ForkOk(s, p);
    forall i {:trigger LinkOk(s', i)} | Slot(i) ensures LinkOk(s', i) { assert LinkOk(s, i); }
    forall i {:trigger ForkOk(s', i)} | Slot(i) ensures ForkOk(s', i) { assert ForkOk(s, i); }
  }

  lemma LinkChildFrames(s: State, p: int)
    requires Inv(s) && Enabled(s, LinkChild(p))
    ensures LocksOk(Apply(s, LinkChild(p))) && Slots(Apply(s, LinkChild(p)))
    ensures Exits(Apply(s, LinkChild(p))) && Waits(Apply(s, LinkChild(p)))
  {
    hide PidsOk, LinkOk;
    var s' := Apply(s, LinkChild(p));
    var np := s.procs[p].pc.np;
    assert SlotOk(s, p) && SlotOk(s, np) && ForkOk(s, p);
    hide Enabled, Apply;
    forall i {:trigger SlotOk(s', i)} | Slot(i) ensures SlotOk(s', i) {
      if i != p && i != np { assert SlotOk(s, i); KeepSlot(s, s', i); }
    }
    forall i {:trigger ExitOk(s', i)} | Slot(i) ensures ExitOk(s', i) { assert SlotOk(s, i); }
    forall i {:trigger WaitsForReason(s', i)} | Slot(i) ensures WaitsForReason(s', i) {
      assert WaitsForReason(s, i) && SlotOk(s, i);
    }
  }

  lemma StepStartChild(s: State, p: int)
    requires Inv(s) && Enabled(s, StartChild(p))
    ensures Inv(Apply(s, StartChild(p)))
  {
    assert SlotOk(s, p) && ForkOk(s, p);
    StartChildTree(s, p);
    StartChildFrames(s, p);
    PidsFrame(s, Apply(s, StartChild(p)));
  }

  lemma StartChildTree(s: State, p: int)
    requires Inv(s) && Enabled(s, StartChild(p))
    ensures Links(Apply(s, StartChild(p))) && Forks(Apply(s, StartChild(p)))
  {
    hide PidsOk, ExitOk, WaitsForReason, LocksOk;
    var s' := Apply(s, StartChild(p));
    var np := s.procs[p].pc.np;
    assert SlotOk(s, p) && SlotOk(s, np) && ForkOk(s, p);
    forall i {:trigger LinkOk(s', i)} | Slot(i) ensures LinkOk(s', i) { assert LinkOk(s, i); }
    forall i {:trigger ForkOk(s', i)} | Slot(i) ensures ForkOk(s', i) { assert ForkOk(s, i); }
  }

  lemma StartChildFrames(s: State, p: int)
    requires Inv(s) && Enabled(s, StartChild(p))
    ensures LocksOk(Apply(s, StartChild(p))) && Slots(Apply(s, StartChild(p)))
    ensures Exits(Apply(s, StartChild(p))) && Waits(Apply(s, StartChild(p)))
  {
    hide PidsOk, LinkOk, ExitOk;
    var s' := Apply(s, StartChild(p));
    var np := s.procs[p].pc.np;
    assert SlotOk(s, p) && SlotOk(s, np) && ForkOk(s, p);
    forall i {:trigger SlotOk(s', i)} | Slot(i) ensures SlotOk(s', i) {
      if i != p && i != np { assert SlotOk(s, i); KeepSlot(s, s', i); }
    }
    forall i {:trigger ExitOk(s', i)} | Slot(i) ensures ExitOk(s', i) { assert ExitOk(s, i); KeepExit(s, s', i); }
    forall i {:trigger WaitsForReason(s', i)} | Slot(i) ensures WaitsForReason(s', i) {
      assert WaitsForReason(s, i); KeepWait(s, s', i);
    }
  }

  // ---------------------------------------------------------------- exit

  lemma StepExitReparent(s: State, p: int)
    requires Inv(s) && Enabled(s, ExitReparent(p))
    ensures Inv(Apply(s, ExitReparent(p)))
  {
    var i := s.procs[p].pc.i;
    assert SlotOk(s, p);
    hide Inv, Apply;
    if i < NPROC && s.procs[i].parent == p { AdoptStep(s, p); } else { PassStep(s, p); }
  }

  lemma AdoptStep(s: State, p: int)
    requires Inv(s) && Enabled(s, ExitReparent(p)) && s.procs[p].pc.i < NPROC && s.procs[s.procs[p].pc.i].parent == p
    ensures Inv(Apply(s, ExitReparent(p)))
  {
    assert SlotOk(s, p);
    AdoptTree(s, p);
    AdoptFrames(s, p);
    PidsFrame(s, Apply(s, ExitReparent(p)));
    hide SlotOk, LinkOk, ForkOk, ExitOk, WaitsForReason, LocksOk, PidsOk;
  }

  /** reparent passes a slot that is not a child of p, or has passed them all. */
  lemma PassStep(s: State, p: int)
    requires Inv(s) && Enabled(s, ExitReparent(p)) && SlotOk(s, p)
    requires s.procs[p].pc.i < NPROC ==> s.procs[s.procs[p].pc.i].parent != p
    ensures Inv(Apply(s, ExitReparent(p)))
  {
    hide PidsOk, LinkOk, ForkOk;
    assert SlotOk(s, p) && ExitOk(s, p);
    AdvancesKeeps(s, Apply(s, ExitReparent(p)), p);
  }

  /** reparent hands the child in slot i to init. */
  lemma AdoptTree(s: State, p: int)
    requires Inv(s) && Enabled(s, ExitReparent(p)) && s.procs[p].pc.i < NPROC && s.procs[s.procs[p].pc.i].parent == p
    ensures Links(Apply(s, ExitReparent(p))) && Forks(Apply(s, ExitReparent(p)))
  {
    var s' := Apply(s, ExitReparent(p));
    var c := s.procs[p].pc.i;
    assert SlotOk(s, p) && LinkOk(s, c) && LinkOk(s, INIT) && LinkOk(s, p);
    assert s.procs[p].pid >= 1;
    forall i {:trigger LinkOk(s', i)} | Slot(i) ensures LinkOk(s', i) { assert LinkOk(s, i); }
    forall i {:trigger ForkOk(s', i)} | Slot(i) ensures ForkOk(s', i) { assert ForkOk(s, i); }
  }

  lemma AdoptFrames(s: State, p: int)
    requires Inv(s) && Enabled(s, ExitReparent(p)) && s.procs[p].pc.i < NPROC && s.procs[s.procs[p].pc.i].parent == p
    ensures LocksOk(Apply(s, ExitReparent(p))) && Slots(Apply(s, ExitReparent(p)))
    ensures Exits(Apply(s, ExitReparent(p))) && Waits(Apply(s, ExitReparent(p)))
  {
    hide PidsOk, ForkOk;
    var s' := Apply(s, ExitReparent(p));
    var c := s.procs[p].pc.i;
    assert SlotOk(s, p) && ExitOk(s, p) && SlotOk(s, c) && LinkOk(s, c) && c != p;
    forall i {:trigger SlotOk(s', i)} | Slot(i) ensures SlotOk(s', i) {
      if i != p && i != c { assert SlotOk(s, i); KeepSlot(s, s', i); }
    }
    forall i {:trigger ExitOk(s', i)} | Slot(i) ensures ExitOk(s', i) { assert SlotOk(s, i); }
    forall i {:trigger WaitsForReason(s', i)} | Slot(i) ensures WaitsForReason(s', i) {
      assert WaitsForReason(s, i) && SlotOk(s, i);
    }
  }

  /** The parent has been woken, or never waited: a new zombie finds nobody asleep for it. */
  lemma StepExitZombie(s: State, p: int, status: int)
    requires Inv(s) && Enabled(s, ExitZombie(p, status))
    ensures Inv(Apply(s, ExitZombie(p, status)))
  {
    assert SlotOk(s, p) && ExitOk(s, p);
    ZombieTree(s, p, status);
    ZombieFrames(s, p, status);
    ZombieKeepsPids(s, p, status);
  }

  lemma ZombieTree(s: State, p: int, status: int)
    requires Inv(s) && Enabled(s, ExitZombie(p, status))
    ensures Links(Apply(s, ExitZombie(p, status))) && Forks(Apply(s, ExitZombie(p, status)))
  {
    var s' := Apply(s, ExitZombie(p, status));
    assert SlotOk(s, p) && ExitOk(s, p);
    forall i {:trigger LinkOk(s', i)} | Slot(i) ensures LinkOk(s', i) { assert LinkOk(s, i); }
    forall i {:trigger ForkOk(s', i)} | Slot(i) ensures ForkOk(s', i) { assert ForkOk(s, i); }
  }

  lemma ZombieFrames(s: State, p: int, status: int)
    requires Inv(s) && Enabled(s, ExitZombie(p, status))
    ensures var s' := Apply(s, ExitZombie(p, status)); LocksOk(s') && Slots(s') && Exits(s') && Waits(s')
  {
    var s' := Apply(s, ExitZombie(p, status));
    assert SlotOk(s, p) && ExitOk(s, p) && WaitsForReason(s, p);
    forall i {:trigger SlotOk(s', i)} | Slot(i) ensures SlotOk(s', i) {
      if i != p { assert SlotOk(s, i); KeepSlot(s, s', i); }
    }
    forall i {:trigger ExitOk(s', i)} | Slot(i) ensures ExitOk(s', i) { assert SlotOk(s, i); }
    forall i {:trigger WaitsForReason(s', i)} | Slot(i) ensures WaitsForReason(s', i) {
      assert WaitsForReason(s, i) && SlotOk(s, i);
    }
  }

  lemma ZombieKeepsPids(s: State, p: int, status: int)
    requires Inv(s) && Enabled(s, ExitZombie(p, status))
    ensures PidsOk(Apply(s, ExitZombie(p, status)))
  {
    var s' := Apply(s, ExitZombie(p, status));
    assert SlotOk(s, p);
    forall k | 0 <= k < |s.reaped| ensures s.reaped[k] in s'.exited { assert s.reaped[k] in s.exited; }
  }

  // ---------------------------------------------------------------- reaping

  lemma StepWaitScan(s: State, p: int)
    requires Inv(s) && Enabled(s, WaitScan(p))
    ensures Inv(Apply(s, WaitScan(p)))
  {
    var i := s.procs[p].pc.i;
    if s.procs[i].parent == p && s.procs[i].state == ZOMBIE {
      ReapTree(s, p);
      ReapFrames(s, p);
      ReapKeepsPids(s, p);
    } else {
      ScanMovesOn(s, p);
    }
  }

  lemma ScanMovesOn(s: State, p: int)
    requires Inv(s) && Enabled(s, WaitScan(p))
    requires s.procs[s.procs[p].pc.i].parent != p || s.procs[s.procs[p].pc.i].state != ZOMBIE
    ensures Inv(Scan(s, p))
  {
    assert SlotOk(s, p) && ExitOk(s, p);
    AdvancesKeeps(s, Scan(s, p), p);
  }

  /** kwait has found a zombie child that is off its stack. */
  ghost predicate Reaps(s: State, p: int) {
    && Inv(s) && Enabled(s, WaitScan(p))
    && s.procs[s.procs[p].pc.i].parent == p && s.procs[s.procs[p].pc.i].state == ZOMBIE
  }

  lemma ReapTree(s: State, p: int)
    requires Reaps(s, p)
    ensures Links(Scan(s, p)) && Forks(Scan(s, p))
  {
    var s' := Scan(s, p);
    var c := s.procs[p].pc.i;
    assert SlotOk(s, p) && SlotOk(s, c);
    FreeHasNoForker(s, c);
    forall i {:trigger LinkOk(s', i)} | Slot(i) ensures LinkOk(s', i) { assert LinkOk(s, i); }
    forall i {:trigger ForkOk(s', i)} | Slot(i) ensures ForkOk(s', i) { assert ForkOk(s, i); }
  }

  lemma ReapFrames(s: State, p: int)
    requires Reaps(s, p)
    ensures LocksOk(Scan(s, p)) && Slots(Scan(s, p)) && Exits(Scan(s, p)) && Waits(Scan(s, p))
  {
    hide PidsOk, ForkOk;
    var s' := Scan(s, p);
    var c := s.procs[p].pc.i;
    assert SlotOk(s, p) && SlotOk(s, c) && WaitsForReason(s, p);
    forall i {:trigger SlotOk(s', i)} | Slot(i) ensures SlotOk(s', i) {
      if i != p && i != c { assert SlotOk(s, i); KeepSlot(s, s', i); }
    }
    forall i {:trigger ExitOk(s', i)} | Slot(i) ensures ExitOk(s', i) { assert SlotOk(s, i); }
    forall i {:trigger WaitsForReason(s', i)} | Slot(i) ensures WaitsForReason(s', i) {
      assert WaitsForReason(s, i) && SlotOk(s, i);
    }
  }

  lemma ReapKeepsPids(s: State, p: int)
    requires Reaps(s, p)
    ensures PidsOk(Scan(s, p))
  {
    var s' := Scan(s, p);
    var c := s.procs[p].pc.i;
    forall k | 0 <= k < |s'.reaped|
      ensures s'.reaped[k] in s'.exited
    {
      if k < |s.reaped| { assert s.reaped[k] in s.exited; }
    }
    forall i | Slot(i) && s'.procs[i].state == ZOMBIE ensures s'.procs[i].pid !in s'.reaped {
      assert s'.procs[i] == s.procs[i];
    }
  }

  // ---------------------------------------------------------------- the theorems

  lemma StepKeepsInv(s: State, step: Step)
    requires Inv(s) && Enabled(s, step)
    ensures Inv(Apply(s, step))
  {
    if TreeStep(step) { TreeStepKeepsInv(s, step); } else { OtherStepKeepsInv(s, step); }
  }

  /** The steps of kfork, kexit and kwait. */
  predicate TreeStep(step: Step) {
    || step.AllocChild? || step.ForkFails? || step.LinkChild? || step.StartChild?
    || step.ExitBegin? || step.ExitReparent? || step.ExitWakeInit? || step.ExitWakeParent? || step.ExitZombie?
    || step.WaitBegin? || step.WaitScan? || step.WaitCopyFails? || step.WaitEnd?
  }

  lemma TreeStepKeepsInv(s: State, step: Step)
    requires Inv(s) && Enabled(s, step) && TreeStep(step)
    ensures Inv(Apply(s, step))
  {
    hide Inv, Enabled;
    match step
    case AllocChild(p, np) => StepAllocChild(s, p, np);
    case ForkFails(p) => StepForkFails(s, p);
    case LinkChild(p) => StepLinkChild(s, p);
    case StartChild(p) => StepStartChild(s, p);
    case ExitBegin(p) => StepExitBegin(s, p);
    case ExitReparent(p) => StepExitReparent(s, p);
    case ExitWakeInit(p) => StepExitWakeInit(s, p);
    case ExitWakeParent(p) => StepExitWakeParent(s, p);
    case ExitZombie(p, status) => StepExitZombie(s, p, status);
    case WaitBegin(p) => StepWaitBegin(s, p);
    case WaitScan(p) => StepWaitScan(s, p);
    case WaitCopyFails(p) => StepWaitCopyFails(s, p);
    case WaitEnd(p) => StepWaitEnd(s, p);
  }

  lemma OtherStepKeepsInv(s: State, step: Step)
    requires Inv(s) && Enabled(s, step) && !TreeStep(step)
    ensures Inv(Apply(s, step))
  {
    hide Inv, Enabled;
    match step
    case LeaveStack(p) => StepLeaveStack(s, p);
    case SleepCall(p) => StepSleepCall(s, p);
    case SleepReturns(p) => StepSleepReturns(s, p);
    case AcquireSleep(p, k) => StepAcquireSleep(s, p, k);
    case ReleaseSleep(p, k) => StepReleaseSleep(s, p, k);
    case ReleaseWake(p) => StepReleaseWake(s, p);
    case ConsoleRead(p) => StepConsoleRead(s, p);
    case ConsoleGivesUp(p) => StepConsoleGivesUp(s, p);
    case ConsoleInput(n) => StepConsoleInput(s, n);
    case ConsoleWake => StepConsoleWake(s);
    case Dispatch(p) => StepDispatch(s, p);
    case Yield(p) => StepYield(s, p);
    case Kill(q) => StepKill(s, q);
  }

  lemma {:induction false} RunKeepsInv(run: seq<State>, k: nat)
    requires IsRun(run) && k < |run|
    ensures Inv(run[k])
  {
    if k > 0 {
      RunKeepsInv(run, k - 1);
      assert Next(run[k - 1], run[k]);
      var step :| Enabled(run[k - 1], step) && run[k] == Apply(run[k - 1], step);
      StepKeepsInv(run[k - 1], step);
    }
  }

  /** The spinlock under which the condition of channel c is tested and changed. */
  predicate ConditionLockFree(s: State, c: Chan)
    requires Sized(s)
  {
    match c
    case NoChan => true
    case Child(_) => s.waitLock == NONE
    case Lock(k) => 0 <= k < NLOCK && s.locks[k].spin == NONE
    case Console => s.consLock == NONE
  }

  /** What a process registered on its channel waits for has not happened. */
  ghost predicate HasReason(s: State, q: int)
    requires Sized(s) && Slot(q)
  {
    match s.procs[q].chan
    case NoChan => true
    case Child(_) => forall c :: Slot(c) && s.procs[c].parent == q ==> s.procs[c].state != ZOMBIE
    case Lock(k) => 0 <= k < NLOCK && s.locks[k].locked
    case Console => s.consR == s.consW
  }

  /**
    No lost wakeup, on any interleaving: a sleeping process is on a channel, and once the
    lock of its condition is free it still has reason to wait.
   */
  lemma NoLostWakeup(run: seq<State>, k: nat, q: int)
    requires IsRun(run) && k < |run| && Slot(q)
    ensures Sized(run[k])
    ensures run[k].procs[q].state == SLEEPING ==> run[k].procs[q].chan != NoChan
    ensures ConditionLockFree(run[k], run[k].procs[q].chan) ==> HasReason(run[k], q)
  {
    RunKeepsInv(run, k);
    assert SlotOk(run[k], q) && WaitsForReason(run[k], q);
  }

  /** Following parent links n times. */
  ghost function Ancestor(s: State, i: int, n: nat): int
    requires Sized(s) && Slot(i)
    decreases n
  {
    if n == 0 then i
    else if Slot(s.procs[i].parent) then Ancestor(s, s.procs[i].parent, n - 1)
    else i
  }

  /** The parent links form a tree rooted at initproc: from every live or zombie process they lead there. */
  lemma {:induction false} LeadsToInit(s: State, i: int)
    requires Inv(s) && Slot(i) && (Live(s.procs[i]) || s.procs[i].state == ZOMBIE)
    ensures exists n: nat :: Ancestor(s, i, n) == INIT
    decreases s.procs[i].pid
  {
    assert SlotOk(s, i) && LinkOk(s, i);
    if i == INIT {
      assert Ancestor(s, i, 0) == INIT;
    } else {
      var p := s.procs[i].parent;
      assert SlotOk(s, p);
      LeadsToInit(s, p);
      var n: nat :| Ancestor(s, p, n) == INIT;
      assert Ancestor(s, i, n + 1) == INIT;
    }
  }

  /** The process tree, in every run. */
  lemma ProcessTree(run: seq<State>, k: nat, i: int)
    requires IsRun(run) && k < |run| && Slot(i)
    ensures var s := run[k];
      && Sized(s) && Live(s.procs[INIT])
      && (Live(s.procs[i]) || s.procs[i].state == ZOMBIE ==> exists n: nat :: Ancestor(s, i, n) == INIT)
      && (s.procs[i].parent != NONE ==> Slot(s.procs[i].parent) && Live(s.procs[s.procs[i].parent]))
      && (s.procs[i].state == ZOMBIE ==> forall c :: Slot(c) ==> s.procs[c].parent != i)
  {
    var s := run[k];
    RunKeepsInv(run, k);
    assert SlotOk(s, i) && LinkOk(s, i) && LinkOk(s, INIT);
    forall c | Slot(c) && s.procs[i].state == ZOMBIE ensures s.procs[c].parent != i { assert LinkOk(s, c); }
    if Live(s.procs[i]) || s.procs[i].state == ZOMBIE { LeadsToInit(s, i); }
  }

  /** Each exit is reaped at most once. */
  lemma ReapedOnce(run: seq<State>, k: nat)
    requires IsRun(run) && k < |run|
    ensures var s := run[k];
      && Sized(s)
      && (forall a, b :: 0 <= a < b < |s.reaped| ==> s.reaped[a] != s.reaped[b])
      && (forall a :: 0 <= a < |s.reaped| ==> s.reaped[a] in s.exited)
  {
    RunKeepsInv(run, k);
  }

  /** Only a failing fork and a scan of kwait free a slot. */
  lemma WhoFrees(s: State, step: Step, s': State, i: int)
    requires Sized(s) && Enabled(s, step) && s' == Apply(s, step) && Sized(s') && Slot(i)
    requires s.procs[i].state != UNUSED && s'.procs[i].state == UNUSED
    ensures step.ForkFails? || step.WaitScan?
  {
  }

  /** A step that frees a slot finds it without a process on its kernel stack; a zombie has left it. */
  lemma FreedOffStack(s: State, step: Step, s': State, i: int)
    requires Inv(s) && Enabled(s, step) && s' == Apply(s, step) && Sized(s') && Slot(i)
    requires s.procs[i].state != UNUSED && s'.procs[i].state == UNUSED
    ensures s.procs[i].pc == Gone && (s.procs[i].state == ZOMBIE || s.procs[i].state == USED)
  {
    hide PidsOk, LinkOk, ExitOk, WaitsForReason, LocksOk;
    WhoFrees(s, step, s', i);
    assert SlotOk(s, i);
    if step.ForkFails? { assert ForkOk(s, step.p); }
  }

  /** In every run a slot is freed only after its process has left its kernel stack. */
  lemma ReapedOffStack(run: seq<State>, k: nat, i: int)
    requires IsRun(run) && k + 1 < |run| && Slot(i) && Sized(run[k]) && Sized(run[k + 1])
    requires run[k].procs[i].state != UNUSED && run[k + 1].procs[i].state == UNUSED
    ensures run[k].procs[i].pc == Gone && (run[k].procs[i].state == ZOMBIE || run[k].procs[i].state == USED)
  {
    RunKeepsInv(run, k);
    RunKeepsInv(run, k + 1);
    assert Next(run[k], run[k + 1]);
    var step :| Enabled(run[k], step) && run[k + 1] == Apply(run[k], step);
    FreedOffStack(run[k], step, run[k + 1], i);
  }
}
