/**
  Waiting for the log (begin_op, end_op and sys_sync of log.c): who sleeps on &log, and why.

  The log itself is that of LogMachine, one of whose steps each step here may be.  Around it,
  every process registers on the channel, lets go of log.lock, sleeps, and looks again; wakeup
  visits the process table slot by slot under log.lock, while other processes run.
 */
module LogSleep {
  import opened Params
  import opened Blocks
  import opened LogMachine
  import LogProof

  const FREE := -1

  /**
    Where a process stands in a wait loop: outside of one; registered, log.lock released, sleep()
    not entered yet; in sleep(); or back from it.  sync tells sys_sync's loop from begin_op's.
   */
  datatype Wait = Outside | Prepared(sync: bool) | Asleep(sync: bool) | Woken(sync: bool)

  /** chan: p->chan == &log.  It outlives the wait of a process that kkill has made runnable. */
  datatype Sleeper = Sleeper(chan: bool, wait: Wait)

  /** waker holds log.lock and has passed the slots below at; FREE if nobody holds it between steps. */
  datatype Waiting = Waiting(log: State, procs: seq<Sleeper>, waker: int, at: int)

  datatype WStep =
    | Log(step: Step)
    | BeginWaits(p: int)
    | SyncWaits(p: int)
    | Sleeps(p: int)
    | WakeSlot
    | WakeEnds
    | Kill(p: int)

  // ---------------------------------------------------------------- conditions

  /** begin_op's reason to wait. */
  ghost predicate Tight(log: State) {
    log.committing || |log.lh| + (log.outstanding + 1) * MAXOPBLOCKS > LOGBLOCKS
  }

  /** Somebody is going to commit. */
  ghost predicate Busy(log: State) {
    log.committing || log.outstanding > 0
  }

  /** The process that takes a step of the log; FREE for a crash. */
  function Actor(log: State, step: Step): int {
    match step
    case BeginOp(p) => p
    case EndOp(p) => p
    case BgetHit(p, _, _) => p
    case BgetMiss(p, _, _) => p
    case LockBuf(p, _) => p
    case ReadBuf(p, _) => p
    case Modify(p, _, _) => p
    case LogWrite(p, _) => p
    case UnlockBuf(p, _) => p
    case DropBuf(p, _) => p
    case SyncCall(p) => p
    case SyncReturn(p) => p
    case Crash => FREE
    case _ => log.worker
  }

  /** The steps that acquire log.lock. */
  predicate TakesLock(step: Step) {
    step.BeginOp? || step.EndOp? || step.LogWrite? || step.CommitDone? || step.SyncCall? || step.SyncReturn?
  }

  /** end_op wakes the waiters if it leaves operations open, and after a commit. */
  predicate Wakes(step: Step, log': State) {
    step.CommitDone? || (step.EndOp? && log'.outstanding > 0)
  }

  predicate Sized(s: Waiting) {
    |s.procs| == NPROC && |s.log.ops| == NPROC && |s.log.syncs| == NPROC
  }

  /** A process takes steps of the log only outside the wait loops, or where it leaves one. */
  predicate MayAct(w: Wait, step: Step) {
    if step.SyncReturn? then w == Woken(true)
    else w == Outside || (step.BeginOp? && w == Woken(false))
  }

  /** p is not in the middle of a system call of its own on the log. */
  predicate MayCall(log: State, p: int)
    requires 0 <= p < |log.ops|
  {
    !Recovering(log) && log.ops[p].NoOp? && !(log.committing && log.worker == p)
  }

  ghost predicate CanStep(s: Waiting, step: WStep) {
    && Sized(s)
    && match step
       case Log(e) =>
         && Enabled(s.log, e) && (TakesLock(e) ==> s.waker == FREE) && (e.SyncCall? ==> MayCall(s.log, e.p))
         && var p := Actor(s.log, e); e.Crash? || (IsProc(p) && p != s.waker && MayAct(s.procs[p].wait, e))
       case BeginWaits(p) =>
         && IsProc(p) && s.waker == FREE && (s.procs[p].wait == Outside || s.procs[p].wait == Woken(false))
         && MayCall(s.log, p) && Tight(s.log)
       case SyncWaits(p) =>
         && IsProc(p) && s.waker == FREE && s.procs[p].wait == Woken(true)
         && s.log.syncs[p].Syncing? && s.log.ncommit < s.log.syncs[p].target
       case Sleeps(p) => IsProc(p) && s.procs[p].wait.Prepared?
       case WakeSlot => s.waker != FREE && 0 <= s.at < NPROC
       case WakeEnds => s.waker != FREE && s.at == NPROC
       case Kill(p) => IsProc(p)
  }

  function Waked(q: Sleeper): Sleeper {
    Sleeper(false, if q.chan && q.wait.Asleep? then Woken(q.wait.sync) else q.wait)
  }

  /** The process after a step of the log: sys_sync finds its commit still to come, and registers. */
  function Acted(q: Sleeper, step: Step): Sleeper {
    if step.SyncCall? then Sleeper(true, Prepared(true))
    else if step.SyncReturn? || step.BeginOp? then q.(wait := Outside)
    else q
  }

  ghost function AfterLog(s: Waiting, step: Step): Waiting
    requires Sized(s) && Enabled(s.log, step) && (step.Crash? || IsProc(Actor(s.log, step)))
  {
    var log', p := Apply(s.log, step), Actor(s.log, step);
    if step.Crash? then Waiting(log', seq(NPROC, i => Sleeper(false, Outside)), FREE, 0)
    else if Wakes(step, log') then Waiting(log', s.procs[p := Acted(s.procs[p], step)], p, 0)
    else s.(log := log', procs := s.procs[p := Acted(s.procs[p], step)])
  }

  ghost function After(s: Waiting, step: WStep): Waiting
    requires CanStep(s, step)
  {
    match step
    case Log(e) => AfterLog(s, e)
    case BeginWaits(p) => s.(procs := s.procs[p := Sleeper(true, Prepared(false))])
    case SyncWaits(p) => s.(procs := s.procs[p := Sleeper(true, Prepared(true))])
    case Sleeps(p) =>
      var q := s.procs[p];
      s.(procs := s.procs[p := q.(wait := if q.chan then Asleep(q.wait.sync) else Woken(q.wait.sync))])
    case WakeSlot => s.(procs := s.procs[s.at := Waked(s.procs[s.at])], at := s.at + 1)
    case WakeEnds => s.(waker := FREE)
    case Kill(p) =>
      var q := s.procs[p];
      s.(procs := s.procs[p := if q.wait.Asleep? then q.(wait := Woken(q.wait.sync)) else q])
  }

  ghost predicate Follows(s: Waiting, s': Waiting) {
    exists step :: CanStep(s, step) && s' == After(s, step)
  }

  ghost predicate Starts(s: Waiting) {
    Init(s.log) && s.procs == seq(NPROC, i => Sleeper(false, Outside)) && s.waker == FREE
  }

  ghost predicate IsHistory(run: seq<Waiting>) {
    && |run| > 0 && Starts(run[0])
    && (forall k :: 0 <= k < |run| - 1 ==> Follows(run[k], run[k + 1]))
  }

  // ---------------------------------------------------------------- invariant

  /** A process on its way to sleep, or asleep. */
  predicate Waits(q: Sleeper) {
    q.chan && (q.wait.Prepared? || q.wait.Asleep?)
  }

  /** What the wait loop of p is waiting for has not happened. */
  ghost predicate Reason(s: Waiting, p: int)
    requires Sized(s) && IsProc(p) && !s.procs[p].wait.Outside?
  {
    if s.procs[p].wait.sync then s.log.syncs[p].Syncing? && s.log.ncommit < s.log.syncs[p].target else Tight(s.log)
  }

  ghost predicate SleeperOk(s: Waiting, p: int)
    requires Sized(s) && IsProc(p)
  {
    var q := s.procs[p];
    && (q.wait.Asleep? ==> q.chan)
    && (Waits(q) ==> Reason(s, p) || (s.waker != FREE && s.at <= p))
    && (!q.wait.Outside? ==> !Recovering(s.log) && s.log.ops[p].NoOp?)
    && (s.log.syncs[p].Syncing? <==> !q.wait.Outside? && q.wait.sync)
    && (s.log.syncs[p].Syncing? && s.log.ncommit < s.log.syncs[p].target ==> Busy(s.log))
    && (s.log.syncs[p].Syncing? ==> s.log.syncs[p].target <= s.log.ncommit + 1)
  }

  ghost predicate WInv(s: Waiting) {
    && Inv(s.log) && Sized(s) && (s.waker == FREE || 0 <= s.at <= NPROC)
    && (forall p {:trigger SleeperOk(s, p)} :: IsProc(p) ==> SleeperOk(s, p))
    && (s.log.committing ==> IsProc(s.log.worker) && s.procs[s.log.worker].wait == Outside)
  }

  // ---------------------------------------------------------------- what a step of the log does to its waiters

  /** The log stops being a reason to wait only where end_op wakes the waiters. */
  ghost predicate Considerate(log: State, step: Step, log': State) {
    && |log.ops| == |log.syncs| == |log'.ops| == |log'.syncs| == NPROC && (Recovering(log') ==> Recovering(log))
    && (Tight(log) && !Recovering(log) && !Tight(log') ==> Wakes(step, log'))
    && (log'.ncommit == log.ncommit + if step.CommitDone? then 1 else 0)
    && (Busy(log) && !Recovering(log) && !Busy(log') ==> step.CommitDone?)
    && (forall p :: IsProc(p) && p != Actor(log, step) ==> log'.ops[p] == log.ops[p] && log'.syncs[p] == log.syncs[p])
    && (log'.committing ==> log'.worker == if log.committing then log.worker else Actor(log, step))
    && (log'.committing && !log.committing ==> step.EndOp?)
  }

  /** The steps of system calls on the log. */
  predicate CallStep(step: Step) {
    step.BeginOp? || step.EndOp? || step.LogWrite? || step.SyncCall? || step.SyncReturn?
  }

  lemma CallConsiderate(log: State, step: Step)
    requires Shape(log) && Protocol(log) && Enabled(log, step) && CallStep(step)
    ensures Considerate(log, step, Apply(log, step))
  {
    if step.EndOp? { LogProof.OpenIsCounted(log, step.p); }
    hide Protocol;
  }

  lemma CommitConsiderate(log: State, step: Step)
    requires Shape(log) && Protocol(log) && Enabled(log, step) && LogProof.LogStep(step)
    ensures Considerate(log, step, Apply(log, step))
  {
    hide GoodList, Open, Unused, HeadImage, HeadList, HeadCount, LogFits, Holds;
    assert Recovering(log) || log.committing;
    hide Protocol;
  }

  lemma BufferConsiderate(log: State, step: Step)
    requires Shape(log) && Enabled(log, step) && !step.Crash? && !CallStep(step) && !LogProof.LogStep(step)
    ensures Considerate(log, step, Apply(log, step))
  {
    hide GoodList;
  }

  lemma LogConsiderate(log: State, step: Step)
    requires Inv(log) && Enabled(log, step) && !step.Crash?
    ensures Considerate(log, step, Apply(log, step))
  {
    hide Shape, Protocol, BufOk, Unique, PinsOk, DirtyOk, OnDisk, SyncOk, Enabled, Apply;
    if CallStep(step) { CallConsiderate(log, step); }
    else if LogProof.LogStep(step) { CommitConsiderate(log, step); } else { BufferConsiderate(log, step); }
  }

  /** What a step of the log does to the process that takes it. */
  ghost predicate OwnDoing(log: State, step: Step, log': State, p: int) {
    && IsProc(p) && |log.ops| == |log.syncs| == |log'.ops| == |log'.syncs| == NPROC
    && (if step.SyncCall? then Busy(log) && !Recovering(log) && log'.syncs[p] == Syncing(log.ncommit + 1, |log.ended|)
        else if step.SyncReturn? then log'.syncs[p] == NoSync else log'.syncs[p] == log.syncs[p])
    && (step.SyncCall? ==> log'.ops[p] == log.ops[p])
  }

  lemma LogOwnDoing(log: State, step: Step)
    requires Shape(log) && Enabled(log, step) && !step.Crash? && IsProc(Actor(log, step))
    ensures OwnDoing(log, step, Apply(log, step), Actor(log, step))
  {
    hide GoodList;
  }

  // ---------------------------------------------------------------- steps keep it

  /** A bystander of a step of the log. */
  lemma OthersLog(s: Waiting, step: Step, s': Waiting, p: int)
    requires WInv(s) && CanStep(s, Log(step)) && !step.Crash? && s' == AfterLog(s, step) && Sized(s')
    requires IsProc(p) && p != Actor(s.log, step) && Considerate(s.log, step, s'.log)
    ensures SleeperOk(s', p)
  {
    hide Inv, Enabled, Apply, Actor;
    assert SleeperOk(s, p);
  }

  /** The process that takes a step of the log. */
  lemma ActorLog(s: Waiting, step: Step, s': Waiting, p: int)
    requires WInv(s) && CanStep(s, Log(step)) && !step.Crash? && s' == AfterLog(s, step) && Sized(s')
    requires p == Actor(s.log, step) && Considerate(s.log, step, s'.log) && OwnDoing(s.log, step, s'.log, p)
    ensures SleeperOk(s', p)
  {
    hide Inv, Enabled, Apply;
    assert SleeperOk(s, p);
  }

  lemma LogKeeps(s: Waiting, step: Step)
    requires WInv(s) && CanStep(s, Log(step)) && !step.Crash?
    ensures WInv(AfterLog(s, step))
  {
    var s', p := AfterLog(s, step), Actor(s.log, step);
    LogProof.StepRefines(s.log, step);
    LogConsiderate(s.log, step);
    LogOwnDoing(s.log, step);
    assert s'.log == Apply(s.log, step);
    hide Inv, Enabled, Apply, Actor, SleeperOk, LogProof.Good, Abs, StoreNext;
    AfterSized(s, step, s');
    WorkerOutside(s, step, s');
    hide AfterLog, CanStep, Considerate, OwnDoing;
    forall q {:trigger SleeperOk(s', q)} | IsProc(q) ensures SleeperOk(s', q) {
      if q == p { ActorLog(s, step, s', q); } else { OthersLog(s, step, s', q); }
    }
  }

  lemma WorkerOutside(s: Waiting, step: Step, s': Waiting)
    requires WInv(s) && CanStep(s, Log(step)) && !step.Crash? && s' == AfterLog(s, step) && Sized(s')
    requires Considerate(s.log, step, s'.log) && OwnDoing(s.log, step, s'.log, Actor(s.log, step)) && Inv(s'.log)
    ensures s'.log.committing ==> IsProc(s'.log.worker) && s'.procs[s'.log.worker].wait == Outside
  {
    hide Inv, Enabled, Apply, SleeperOk;
  }

  lemma AfterSized(s: Waiting, step: Step, s': Waiting)
    requires CanStep(s, Log(step)) && !step.Crash? && s' == AfterLog(s, step)
    requires Considerate(s.log, step, s'.log)
    ensures Sized(s') && (s.waker == FREE || 0 <= s.at <= NPROC ==> s'.waker == FREE || 0 <= s'.at <= NPROC)
  {
    hide Enabled, Apply, Actor;
  }

  lemma CrashKeeps(s: Waiting)
    requires WInv(s)
    ensures WInv(AfterLog(s, Crash))
  {
    LogProof.StepCrash(s.log);
  }

  /** A step of the process table alone. */
  lemma TableKeeps(s: Waiting, step: WStep)
    requires WInv(s) && CanStep(s, step) && !step.Log?
    ensures WInv(After(s, step))
  {
    hide Inv;
    var s' := After(s, step);
    forall q {:trigger SleeperOk(s', q)} | IsProc(q) ensures SleeperOk(s', q) { assert SleeperOk(s, q); }
  }

  lemma StepKeeps(s: Waiting, step: WStep)
    requires WInv(s) && CanStep(s, step)
    ensures WInv(After(s, step))
  {
    hide WInv, CanStep;
    if !step.Log? { TableKeeps(s, step); } else if step.step.Crash? { CrashKeeps(s); } else { LogKeeps(s, step.step); }
  }

  lemma {:induction false} HistoryKeeps(run: seq<Waiting>, k: nat)
    requires IsHistory(run) && k < |run|
    ensures WInv(run[k])
  {
    if k == 0 {
      LogProof.BootIsGood(run[0].log.disk, run[0].log.start);
    } else {
      HistoryKeeps(run, k - 1);
      assert Follows(run[k - 1], run[k]);
      var step :| CanStep(run[k - 1], step) && run[k] == After(run[k - 1], step);
      StepKeeps(run[k - 1], step);
    }
  }

  // ---------------------------------------------------------------- main results

  /** Whatever happens around it, the log does what LogMachine's does: each step is one of its, or none. */
  lemma LogIsUndisturbed(run: seq<Waiting>, k: nat)
    requires IsHistory(run) && k + 1 < |run|
    ensures run[k + 1].log == run[k].log || Next(run[k].log, run[k + 1].log)
  {
    assert Follows(run[k], run[k + 1]);
    var step :| CanStep(run[k], step) && run[k + 1] == After(run[k], step);
    if step.Log? { assert Enabled(run[k].log, step.step); }
  }

  /**
    No wakeup of &log is lost: in every run, while log.lock is free, a process that sleeps, or is
    about to, would find on looking that it still has to wait.
   */
  lemma NoLostLogWakeup(run: seq<Waiting>, k: nat, p: int)
    requires IsHistory(run) && k < |run| && IsProc(p) && Sized(run[k]) && run[k].waker == FREE
    ensures run[k].procs[p].wait.Asleep? ==> run[k].procs[p].chan
    ensures Waits(run[k].procs[p]) ==> Reason(run[k], p)
  {
    HistoryKeeps(run, k);
    assert SleeperOk(run[k], p);
  }

  lemma {:induction false} SomeOpen(ops: seq<Op>) returns (q: int)
    requires Open(ops) > 0
    ensures 0 <= q < |ops| && ops[q].InOp?
  {
    if ops[0].InOp? { q := 0; } else {
      q := SomeOpen(ops[1..]);
      q := q + 1;
    }
  }

  /**
    A process that looks, with log.lock free, goes on exactly if its reason to wait is gone:
    begin_op if the log is not tight, sys_sync if the commit it waits for has come.
   */
  lemma LookDecides(s: Waiting, p: int)
    requires Sized(s) && IsProc(p) && s.waker == FREE
    ensures (s.procs[p].wait == Outside || s.procs[p].wait == Woken(false)) && MayCall(s.log, p) ==>
      (CanStep(s, Log(BeginOp(p))) <==> !Tight(s.log)) && (CanStep(s, BeginWaits(p)) <==> Tight(s.log))
    ensures s.procs[p].wait == Woken(true) && s.log.syncs[p].Syncing? ==>
      && (CanStep(s, Log(SyncReturn(p))) <==> s.log.ncommit >= s.log.syncs[p].target)
      && (CanStep(s, SyncWaits(p)) <==> s.log.ncommit < s.log.syncs[p].target)
  {
  }

  /** Whoever has to wait registers before log.lock is let go; whoever goes on leaves the wait loop. */
  lemma LookRegisters(s: Waiting, p: int)
    requires Sized(s) && IsProc(p)
    ensures CanStep(s, BeginWaits(p)) ==>
      After(s, BeginWaits(p)) == s.(procs := s.procs[p := Sleeper(true, Prepared(false))])
    ensures CanStep(s, SyncWaits(p)) ==>
      After(s, SyncWaits(p)) == s.(procs := s.procs[p := Sleeper(true, Prepared(true))])
    ensures CanStep(s, Log(BeginOp(p))) ==>
      After(s, Log(BeginOp(p))).procs == s.procs[p := s.procs[p].(wait := Outside)]
    ensures CanStep(s, Log(SyncReturn(p))) ==>
      After(s, Log(SyncReturn(p))).procs == s.procs[p := s.procs[p].(wait := Outside)]
  {
  }

  /** kkill gets a process out of its sleep, though not off the channel. */
  lemma KillAwakes(s: Waiting, p: int)
    requires CanStep(s, Kill(p))
    ensures var t := After(s, Kill(p));
      && Sized(t) && !t.procs[p].wait.Asleep? && t.procs[p].chan == s.procs[p].chan
      && (!s.procs[p].wait.Asleep? ==> t == s)
  {
    if !s.procs[p].wait.Asleep? { assert s.procs[p := s.procs[p]] == s.procs; }
  }

  /** sleep() blocks exactly if no wakeup has come since the process registered. */
  lemma SleepBlocks(s: Waiting, p: int)
    requires CanStep(s, Sleeps(p))
    ensures var t, sync := After(s, Sleeps(p)), s.procs[p].wait.sync;
      && |t.procs| == NPROC && (t.procs[p].wait == Asleep(sync) <==> s.procs[p].chan)
      && (t.procs[p].wait == Woken(sync) <==> !s.procs[p].chan)
  {
  }

  /** The steps, one after the other, lead from s to t. */
  ghost predicate Leads(s: Waiting, steps: seq<WStep>, t: Waiting)
    decreases |steps|
  {
    if steps == [] then t == s else CanStep(s, steps[0]) && Leads(After(s, steps[0]), steps[1..], t)
  }

  /** wakeup(&log) can run to its end, and then has woken every sleeper it had still to pass. */
  lemma {:induction false} WakeupEnds(s: Waiting) returns (steps: seq<WStep>, t: Waiting)
    requires Sized(s) && s.waker != FREE && 0 <= s.at <= NPROC
    ensures Leads(s, steps, t) && Sized(t) && t.waker == FREE && t.log == s.log
    ensures forall p :: 0 <= p < NPROC ==> t.procs[p] == if p < s.at then s.procs[p] else Waked(s.procs[p])
    ensures forall p :: s.at <= p < NPROC ==> !t.procs[p].chan && (s.procs[p].chan ==> !t.procs[p].wait.Asleep?)
    decreases NPROC - s.at
  {
    var step := if s.at == NPROC then WakeEnds else WakeSlot;
    var s1 := After(s, step);
    if s.at == NPROC {
      steps, t := [WakeEnds], s1;
      assert Leads(s1, [WakeEnds][1..], s1);
    } else {
      var rest;
      rest, t := WakeupEnds(s1);
      steps := [WakeSlot] + rest;
      assert steps[1..] == rest;
    }
  }

  /** A log that gives nobody anything to do gives nobody a reason to wait. */
  lemma IdleIsNotTight(log: State)
    requires Inv(log) && !Recovering(log) && !Busy(log)
    ensures !Tight(log)
  {
    hide BufOk, Unique, PinsOk, DirtyOk, OnDisk, SyncOk;
  }

  /**
    And somebody will wake it: in every run, while a process waits and log.lock is free, the
    committing process or one with an open operation does not wait for the log itself.
   */
  lemma SomeoneWillWake(run: seq<Waiting>, k: nat, p: int) returns (q: int)
    requires IsHistory(run) && k < |run| && IsProc(p) && Sized(run[k]) && run[k].waker == FREE && Waits(run[k].procs[p])
    ensures IsProc(q) && run[k].procs[q].wait == Outside
    ensures if run[k].log.committing then q == run[k].log.worker else run[k].log.ops[q].InOp?
  {
    HistoryKeeps(run, k);
    var s := run[k];
    assert SleeperOk(s, p);
    if !Busy(s.log) { IdleIsNotTight(s.log); }
    hide IsHistory;
    if s.log.committing {
      q := s.log.worker;
    } else {
      OpenIsOutstanding(s.log);
      q := SomeOpen(s.log.ops);
      assert SleeperOk(s, q);
    }
  }

  lemma OpenIsOutstanding(log: State)
    requires Inv(log)
    ensures log.outstanding == Open(log.ops)
  {
  }
}
