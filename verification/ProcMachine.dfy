/**
  The process table (proc.c), sleep locks (sleeplock.c) and the console reader
  (console.c) as a step machine.

  A step is a section run under the spinlock that protects it; wakeup's scan of
  the table and the scans of kexit and kwait take one step per slot, so other
  processes run in between.
 */
module ProcMachine {
  import opened Params

  const NLOCK := 16
  const INIT := 0        // initproc: the first slot userinit allocates
  const NONE := -1
  const INTR := 64       // the console interrupt handler, as a lock holder

  datatype PState = UNUSED | USED | SLEEPING | RUNNABLE | RUNNING | ZOMBIE

  /** Sleep channels are addresses; these are the ones the model uses. */
  datatype Chan = NoChan | Child(p: int) | Console | Lock(k: int)

  /** The kernel code a process is in. */
  datatype Pc =
    | Gone                          // none: free slot, child not started, or zombie off its stack
    | User                          // none of the sections below
    | Forking(np: int)              // kfork: np allocated
    | Forked(np: int)               // kfork: np->parent set
    | Exiting(i: int)               // kexit: reparent has passed i slots (holds wait_lock)
    | ExitWakesInit(i: int, j: int) // kexit: reparent's wakeup(initproc) for slot i has passed j slots
    | ExitWakesParent(j: int)       // kexit: wakeup(p->parent) has passed j slots
    | Dying                         // kexit: ZOMBIE, still on its kernel stack (holds p->lock)
    | Scanning(i: int, kids: bool)  // kwait: the scan has passed i slots (holds wait_lock)
    | Registered(c: Chan)           // after sleep_prepare(c) and the release, before sleep()
    | Asleep(c: Chan)               // in sleep()
    | Woken(c: Chan)                // sleep() returned, before the acquire
    | Releasing(k: int, j: int)     // releasesleep: wakeup(lk) has passed j slots (holds lk->lk)

  datatype Proc = Proc(state: PState, chan: Chan, parent: int, pid: int, killed: bool, xstate: int, pc: Pc)

  const FREE_PROC := Proc(UNUSED, NoChan, NONE, 0, false, 0, Gone)

  /** struct sleeplock: spin is the holder of lk->lk. */
  datatype SleepLock = SleepLock(locked: bool, owner: int, spin: int)

  datatype State = State(
    procs: seq<Proc>, nextpid: int, waitLock: int,
    locks: seq<SleepLock>,
    consR: nat, consW: nat, consLock: int, intrAt: int,   // console ring, and its handler's wakeup position
    exited: seq<int>, statuses: seq<int>,                 // pids and statuses given to kexit, in order
    reaped: seq<int>, delivered: seq<int>)                // pids and statuses given back by kwait, in order

  datatype Step =
    | AllocChild(p: int, np: int) | ForkFails(p: int) | LinkChild(p: int) | StartChild(p: int)
    | ExitBegin(p: int) | ExitReparent(p: int) | ExitWakeInit(p: int) | ExitWakeParent(p: int)
    | ExitZombie(p: int, status: int) | LeaveStack(p: int)
    | WaitBegin(p: int) | WaitScan(p: int) | WaitCopyFails(p: int) | WaitEnd(p: int)
    | SleepCall(p: int) | SleepReturns(p: int)
    | AcquireSleep(p: int, k: int) | ReleaseSleep(p: int, k: int) | ReleaseWake(p: int)
    | ConsoleRead(p: int) | ConsoleGivesUp(p: int) | ConsoleInput(n: nat) | ConsoleWake
    | Dispatch(p: int) | Yield(p: int) | Kill(q: int)

  predicate Slot(i: int) { 0 <= i < NPROC }

  predicate Sized(s: State) { |s.procs| == NPROC && |s.locks| == NLOCK }

  /** p runs, and is at pc. */
  predicate Runs(s: State, p: int)
    requires Sized(s)
  {
    Slot(p) && s.procs[p].state == RUNNING
  }

  /** p->lock of slot j can be taken: its process is not on its way out of kexit. */
  predicate LockFree(s: State, j: int)
    requires Sized(s) && Slot(j)
  {
    s.procs[j].pc != Dying
  }

  /** wakeup's loop body for slot j. */
  function WakeOne(q: Proc, c: Chan): Proc {
    if q.chan == c then q.(chan := NoChan, state := if q.state == SLEEPING then RUNNABLE else q.state) else q
  }

  function Wake(procs: seq<Proc>, j: int, c: Chan): seq<Proc>
    requires 0 <= j < |procs|
  {
    procs[j := WakeOne(procs[j], c)]
  }

  /**
    Spinlocks keep interrupts off, so a process gives up the CPU only where it holds none.
    kfork gives up np->lock before it links the child; a yield before that is one the source
    does not have.
   */
  predicate HoldsNoSpinlock(pc: Pc) { pc.User? || pc.Forking? || pc.Forked? || pc.Registered? || pc.Woken? }

  ghost predicate Enabled(s: State, step: Step) {
    Sized(s) &&
    match step
    case AllocChild(p, np) => Runs(s, p) && s.procs[p].pc == User && Slot(np) && s.procs[np].state == UNUSED
    case ForkFails(p) => Runs(s, p) && s.procs[p].pc.Forking? && Slot(s.procs[p].pc.np)
    case LinkChild(p) => Runs(s, p) && s.procs[p].pc.Forking? && Slot(s.procs[p].pc.np) && s.waitLock == NONE
    case StartChild(p) => Runs(s, p) && s.procs[p].pc.Forked? && Slot(s.procs[p].pc.np)
    case ExitBegin(p) => Runs(s, p) && s.procs[p].pc == User && p != INIT && s.waitLock == NONE
    case ExitReparent(p) => Runs(s, p) && s.procs[p].pc.Exiting? && 0 <= s.procs[p].pc.i <= NPROC
    case ExitWakeInit(p) =>
      && Runs(s, p) && s.procs[p].pc.ExitWakesInit? && 0 <= s.procs[p].pc.j <= NPROC
      && (Slot(s.procs[p].pc.j) ==> LockFree(s, s.procs[p].pc.j))
    case ExitWakeParent(p) =>
      Runs(s, p) && s.procs[p].pc.ExitWakesParent? && Slot(s.procs[p].pc.j) && LockFree(s, s.procs[p].pc.j)
    case ExitZombie(p, status) => Runs(s, p) && s.procs[p].pc == ExitWakesParent(NPROC)
    case LeaveStack(p) => Slot(p) && s.procs[p].pc == Dying
    case WaitBegin(p) =>
      Runs(s, p) && (s.procs[p].pc == User || s.procs[p].pc == Woken(Child(p))) && s.waitLock == NONE
    case WaitScan(p) =>
      && Runs(s, p) && s.procs[p].pc.Scanning? && Slot(s.procs[p].pc.i)
      && (s.procs[s.procs[p].pc.i].parent == p ==> LockFree(s, s.procs[p].pc.i))
    case WaitCopyFails(p) =>
      && Runs(s, p) && s.procs[p].pc.Scanning? && Slot(s.procs[p].pc.i)
      && s.procs[s.procs[p].pc.i].parent == p && s.procs[s.procs[p].pc.i].state == ZOMBIE
      && LockFree(s, s.procs[p].pc.i)
    case WaitEnd(p) => Runs(s, p) && s.procs[p].pc.Scanning? && s.procs[p].pc.i == NPROC
    case SleepCall(p) => Runs(s, p) && s.procs[p].pc.Registered?
    case SleepReturns(p) => Runs(s, p) && s.procs[p].pc.Asleep?
    case AcquireSleep(p, k) =>
      && Runs(s, p) && 0 <= k < NLOCK && s.locks[k].spin == NONE
      && (s.procs[p].pc == User || s.procs[p].pc == Woken(Lock(k)))
    case ReleaseSleep(p, k) =>
      && Runs(s, p) && 0 <= k < NLOCK && s.locks[k].spin == NONE && s.procs[p].pc == User
      && s.locks[k].locked && s.locks[k].owner == p
    case ReleaseWake(p) =>
      && Runs(s, p) && s.procs[p].pc.Releasing? && 0 <= s.procs[p].pc.k < NLOCK && 0 <= s.procs[p].pc.j <= NPROC
      && (Slot(s.procs[p].pc.j) ==> LockFree(s, s.procs[p].pc.j))
    case ConsoleRead(p) =>
      Runs(s, p) && (s.procs[p].pc == User || s.procs[p].pc == Woken(Console)) && s.consLock == NONE
    case ConsoleGivesUp(p) => Runs(s, p) && s.procs[p].pc == Woken(Console) && s.procs[p].killed
    case ConsoleInput(n) => s.consLock == NONE && n > 0
    case ConsoleWake => s.consLock == INTR && 0 <= s.intrAt <= NPROC && (Slot(s.intrAt) ==> LockFree(s, s.intrAt))
    case Dispatch(p) => Slot(p) && s.procs[p].state == RUNNABLE
    case Yield(p) => Runs(s, p) && HoldsNoSpinlock(s.procs[p].pc)
    case Kill(q) => Slot(q) && LockFree(s, q)          // kkill(0) finds a free slot
  }

  function At(s: State, p: int, pc: Pc): State
    requires Sized(s) && Slot(p)
  {
    s.(procs := s.procs[p := s.procs[p].(pc := pc)])
  }

  /** kwait's loop body for slot i: reap a zombie child, note a living one, skip the rest. */
  function Scan(s: State, p: int): State
    requires Sized(s) && Slot(p) && s.procs[p].pc.Scanning? && Slot(s.procs[p].pc.i)
  {
    var i := s.procs[p].pc.i;
    var c := s.procs[i];
    if c.parent != p then At(s, p, Scanning(i + 1, s.procs[p].pc.kids))
    else if c.state != ZOMBIE then At(s, p, Scanning(i + 1, true))
    else At(s, p, User).(procs := At(s, p, User).procs[i := FREE_PROC], waitLock := NONE,
                         reaped := s.reaped + [c.pid], delivered := s.delivered + [c.xstate])
  }

  /** kwait after the scan: give up, or register on the process itself and release wait_lock. */
  function EndScan(s: State, p: int): State
    requires Sized(s) && Slot(p) && s.procs[p].pc.Scanning?
  {
    if !s.procs[p].pc.kids || s.procs[p].killed then At(s, p, User).(waitLock := NONE)
    else s.(procs := s.procs[p := s.procs[p].(chan := Child(p), pc := Registered(Child(p)))], waitLock := NONE)
  }

  ghost function Apply(s: State, step: Step): State
    requires Enabled(s, step)
  {
    match step
    case AllocChild(p, np) =>
      At(s, p, Forking(np)).(procs := At(s, p, Forking(np)).procs[np := s.procs[np].(state := USED, pid := s.nextpid)],
                             nextpid := s.nextpid + 1)
    case ForkFails(p) =>
      var np := s.procs[p].pc.np;
      At(s.(procs := s.procs[np := FREE_PROC.(parent := s.procs[np].parent)]), p, User)
    case LinkChild(p) =>
      var np := s.procs[p].pc.np;
      At(s.(procs := s.procs[np := s.procs[np].(parent := p)]), p, Forked(np))
    case StartChild(p) =>
      var np := s.procs[p].pc.np;
      At(s.(procs := s.procs[np := s.procs[np].(state := RUNNABLE, pc := User)]), p, User)
    case ExitBegin(p) => At(s, p, Exiting(0)).(waitLock := p)
    case ExitReparent(p) =>
      var i := s.procs[p].pc.i;
      if i == NPROC then At(s, p, ExitWakesParent(0))
      else if s.procs[i].parent == p then
        At(s.(procs := s.procs[i := s.procs[i].(parent := INIT)]), p, ExitWakesInit(i, 0))
      else At(s, p, Exiting(i + 1))
    case ExitWakeInit(p) =>
      var pc := s.procs[p].pc;
      if pc.j == NPROC then At(s, p, Exiting(pc.i + 1))
      else At(s.(procs := Wake(s.procs, pc.j, Child(INIT))), p, ExitWakesInit(pc.i, pc.j + 1))
    case ExitWakeParent(p) =>
      var j := s.procs[p].pc.j;
      At(s.(procs := Wake(s.procs, j, Child(s.procs[p].parent))), p, ExitWakesParent(j + 1))
    case ExitZombie(p, status) =>
      s.(procs := s.procs[p := s.procs[p].(state := ZOMBIE, xstate := status, pc := Dying)], waitLock := NONE,
         exited := s.exited + [s.procs[p].pid], statuses := s.statuses + [status])
    case LeaveStack(p) => At(s, p, Gone)
    case WaitBegin(p) => At(s, p, Scanning(0, false)).(waitLock := p)
    case WaitScan(p) => Scan(s, p)
    case WaitCopyFails(p) => At(s, p, User).(waitLock := NONE)
    case WaitEnd(p) => EndScan(s, p)
    case SleepCall(p) =>
      var q := s.procs[p];
      s.(procs := s.procs[p := if q.chan != NoChan then q.(state := SLEEPING, pc := Asleep(q.pc.c))
                               else q.(pc := Woken(q.pc.c))])
    case SleepReturns(p) => At(s, p, Woken(s.procs[p].pc.c))
    case AcquireSleep(p, k) =>
      if s.locks[k].locked then
        s.(procs := s.procs[p := s.procs[p].(chan := Lock(k), pc := Registered(Lock(k)))])
      else At(s, p, User).(locks := s.locks[k := s.locks[k].(locked := true, owner := p)])
    case ReleaseSleep(p, k) => At(s, p, Releasing(k, 0)).(locks := s.locks[k := SleepLock(false, NONE, p)])
    case ReleaseWake(p) =>
      var k, j := s.procs[p].pc.k, s.procs[p].pc.j;
      if j == NPROC then At(s, p, User).(locks := s.locks[k := s.locks[k].(spin := NONE)])
      else At(s.(procs := Wake(s.procs, j, Lock(k))), p, Releasing(k, j + 1))
    case ConsoleRead(p) =>
      if s.consR == s.consW then
        s.(procs := s.procs[p := s.procs[p].(chan := Console, pc := Registered(Console))])
      else At(s, p, User).(consR := s.consR + 1)
    case ConsoleGivesUp(p) => At(s, p, User)
    case ConsoleInput(n) => s.(consW := s.consW + n, consLock := INTR, intrAt := 0)
    case ConsoleWake =>
      if s.intrAt == NPROC then s.(consLock := NONE)
      else s.(procs := Wake(s.procs, s.intrAt, Console), intrAt := s.intrAt + 1)
    case Dispatch(p) => s.(procs := s.procs[p := s.procs[p].(state := RUNNING)])
    case Yield(p) => s.(procs := s.procs[p := s.procs[p].(state := RUNNABLE)])
    case Kill(q) =>
      s.(procs := s.procs[q := s.procs[q].(killed := true,
           state := if s.procs[q].state == SLEEPING then RUNNABLE else s.procs[q].state)])
  }

  ghost predicate Next(s: State, s': State) {
    exists step :: Enabled(s, step) && s' == Apply(s, step)
  }

  /** After procinit and userinit: the first process is ready, all other slots are free. */
  ghost predicate Init(s: State) {
    && s.procs == seq(NPROC, i => if i == INIT then Proc(RUNNABLE, NoChan, NONE, 1, false, 0, User) else FREE_PROC)
    && s.nextpid == 2 && s.waitLock == NONE
    && s.locks == seq(NLOCK, i => SleepLock(false, NONE, NONE))
    && s.consR == s.consW && s.consLock == NONE && s.exited == [] && s.reaped == []
    && s.statuses == [] && s.delivered == []
  }

  ghost predicate IsRun(run: seq<State>) {
    && |run| > 0 && Init(run[0])
    && (forall k :: 0 <= k < |run| - 1 ==> Next(run[k], run[k + 1]))
  }

  // ---------------------------------------------------------------- invariant

  predicate Live(q: Proc) { q.state == SLEEPING || q.state == RUNNABLE || q.state == RUNNING }

  predicate HoldsWait(pc: Pc) { pc.Exiting? || pc.ExitWakesInit? || pc.ExitWakesParent? || pc.Scanning? }

  /** What one slot says of itself. */
  ghost predicate SlotOk(s: State, i: int)
    requires Sized(s) && Slot(i)
  {
    var q := s.procs[i];
    && (q.state == UNUSED ==> q == FREE_PROC.(killed := q.killed))
    && (q.state == USED ==> q.pc == Gone && q.chan == NoChan)
    && (q.state == ZOMBIE ==> q.pc == Dying || q.pc == Gone)
    && (Live(q) ==> q.pc != Gone && q.pc != Dying)
    && (q.state == SLEEPING ==> q.pc.Asleep? && q.chan == q.pc.c && q.chan != NoChan)
    && (q.state == RUNNABLE ==> HoldsNoSpinlock(q.pc) || q.pc.Asleep?)
    && (q.pc.Registered? || q.pc.Asleep? || q.pc.Woken? ==> q.pc.c != NoChan)
    && (q.pc.Registered? || q.pc.Asleep? ==> q.chan == NoChan || q.chan == q.pc.c)
    && (q.state != UNUSED ==> 1 <= q.pid < s.nextpid)
    && (HoldsWait(q.pc) <==> s.waitLock == i)
    && (q.chan.Child? ==> q.chan.p == i)
    && (q.pc.Releasing? ==> 0 <= q.pc.k < NLOCK && 0 <= q.pc.j <= NPROC && s.locks[q.pc.k].spin == i)
    && (q.pc.Exiting? ==> 0 <= q.pc.i <= NPROC)
    && (q.pc.ExitWakesInit? ==> 0 <= q.pc.i < NPROC && 0 <= q.pc.j <= NPROC)
    && (q.pc.ExitWakesParent? ==> 0 <= q.pc.j <= NPROC)
    && (q.pc.Scanning? ==> 0 <= q.pc.i <= NPROC)
    && (q.pc.Exiting? || q.pc.ExitWakesInit? || q.pc.ExitWakesParent? ==> i != INIT)
  }

  /** The parent link of slot i: it leads to a live process with a smaller pid. */
  ghost predicate LinkOk(s: State, i: int)
    requires Sized(s) && Slot(i)
  {
    var q := s.procs[i];
    && (q.parent != NONE ==> Slot(q.parent) && Live(s.procs[q.parent]) && s.procs[q.parent].pid < q.pid)
    && ((Live(q) || q.state == ZOMBIE) && i != INIT ==> q.parent != NONE)
    && (i == INIT ==> Live(q) && q.parent == NONE && q.pid == 1)
  }

  predicate IsFork(pc: Pc) { pc.Forking? || pc.Forked? }

  /** The child being forked by p: a USED slot no other process is forking. */
  ghost predicate ForkOk(s: State, p: int)
    requires Sized(s) && Slot(p)
  {
    var pc := s.procs[p].pc;
    && (pc.Forking? || pc.Forked? ==>
          Slot(pc.np) && pc.np != p && s.procs[pc.np].state == USED && s.procs[p].pid < s.procs[pc.np].pid)
    && (pc.Forking? ==> s.procs[pc.np].parent == NONE)
    && (pc.Forked? ==> s.procs[pc.np].parent == p)
    && (IsFork(pc) ==> forall o :: Slot(o) && o != p && IsFork(s.procs[o].pc) ==> s.procs[o].pc.np != pc.np)
  }

  /** kexit has taken its children away from p for the slots reparent has passed. */
  ghost predicate ExitOk(s: State, p: int)
    requires Sized(s) && Slot(p)
  {
    var pc := s.procs[p].pc;
    && (pc.Exiting? ==> forall c :: 0 <= c < pc.i && Slot(c) ==> s.procs[c].parent != p)
    && (pc.ExitWakesInit? ==> forall c :: 0 <= c <= pc.i && Slot(c) ==> s.procs[c].parent != p)
    && (pc.ExitWakesParent? ==> forall c :: Slot(c) ==> s.procs[c].parent != p)
    && (pc.ExitWakesParent? ==> forall j :: 0 <= j < pc.j && Slot(j) ==> s.procs[j].chan != Child(s.procs[p].parent))
    && (pc.Scanning? ==> forall c :: 0 <= c < pc.i && Slot(c) && s.procs[c].parent == p ==> s.procs[c].state != ZOMBIE)
  }

  /** The wakeup(initproc) of a kexit in progress has not reached slot q yet. */
  ghost predicate InitWakePending(s: State, q: int)
    requires Sized(s)
  {
    Slot(s.waitLock) && s.procs[s.waitLock].pc.ExitWakesInit? && s.procs[s.waitLock].pc.j <= q
  }

  /** The wakeup(lk) of a releasesleep in progress has not reached slot q yet. */
  ghost predicate LockWakePending(s: State, k: int, q: int)
    requires Sized(s) && 0 <= k < NLOCK
  {
    Slot(s.locks[k].spin) && s.procs[s.locks[k].spin].pc.Releasing? && s.procs[s.locks[k].spin].pc.k == k &&
    s.procs[s.locks[k].spin].pc.j <= q
  }

  /** A registered process still has reason to wait, or the wakeup that ends it is under way. */
  ghost predicate WaitsForReason(s: State, q: int)
    requires Sized(s) && Slot(q)
  {
    match s.procs[q].chan
    case NoChan => true
    case Child(p) => (forall c :: Slot(c) && s.procs[c].parent == q ==> s.procs[c].state != ZOMBIE)
                     || (q == INIT && InitWakePending(s, q))
    case Lock(k) => 0 <= k < NLOCK && (s.locks[k].locked || LockWakePending(s, k, q))
    case Console => s.consR == s.consW || (s.consLock == INTR && s.intrAt <= q)
  }

  ghost predicate LocksOk(s: State)
    requires Sized(s)
  {
    && (s.waitLock == NONE || Slot(s.waitLock))
    && (s.consLock == NONE || (s.consLock == INTR && 0 <= s.intrAt <= NPROC)) && s.consR <= s.consW
    && (forall k :: 0 <= k < NLOCK && s.locks[k].spin != NONE ==>
          Slot(s.locks[k].spin) && s.procs[s.locks[k].spin].pc.Releasing? && s.procs[s.locks[k].spin].pc.k == k)
  }

  /** Every pid is used once; the exited and the reaped ones are told apart. */
  ghost predicate PidsOk(s: State)
    requires Sized(s)
  {
    && s.nextpid >= 2
    && (forall i, j :: Slot(i) && Slot(j) && i != j && s.procs[i].state != UNUSED && s.procs[j].state != UNUSED ==>
          s.procs[i].pid != s.procs[j].pid)
    && (forall k :: 0 <= k < |s.exited| ==> s.exited[k] < s.nextpid)
    && (forall k :: 0 <= k < |s.reaped| ==> s.reaped[k] in s.exited)
    && (forall j, k :: 0 <= j < k < |s.reaped| ==> s.reaped[j] != s.reaped[k])
    && (forall i :: Slot(i) && s.procs[i].state == ZOMBIE ==> s.procs[i].pid in s.exited && s.procs[i].pid !in s.reaped)
    && (forall i :: Slot(i) && s.procs[i].state != UNUSED && s.procs[i].state != ZOMBIE ==> s.procs[i].pid !in s.exited)
  }

  ghost predicate Inv(s: State) {
    && Sized(s)
    && (forall i {:trigger SlotOk(s, i)} :: Slot(i) ==> SlotOk(s, i))
    && (forall i {:trigger LinkOk(s, i)} :: Slot(i) ==> LinkOk(s, i))
    && (forall i {:trigger ForkOk(s, i)} :: Slot(i) ==> ForkOk(s, i))
    && (forall i {:trigger ExitOk(s, i)} :: Slot(i) ==> ExitOk(s, i))
    && (forall i {:trigger WaitsForReason(s, i)} :: Slot(i) ==> WaitsForReason(s, i))
    && LocksOk(s) && PidsOk(s)
  }
}
