/**
  The write-ahead log over the buffer cache (log.c, bio.c) as a step machine.

  Any number of processes run between the steps; each step is one section the
  kernel runs under a spinlock, or one disk write.  A crash can happen between
  any two steps: it keeps the disk and loses everything else.
 */
module LogMachine {
  import opened Params
  import opened Blocks

  const ROOTDEV := 1

  /**
    struct buf.  `users` are the processes that own one of the references counted in
    refcnt; `dirty` says that the holder changed the data and has not called log_write yet.
   */
  datatype Buf = Buf(dev: nat, blockno: int, valid: bool, refcnt: int, data: Block,
                     holder: int, users: set<int>, dirty: bool)

  const NOBODY := -1
  const EMPTY_BUF := Buf(0, 0, false, 0, ZeroBlock(), NOBODY, {}, false)

  /** A process outside any FS system call, or inside one that began after that many commits. */
  datatype Op = NoOp | InOp(appended: nat, began: nat)

  /** Where commit() or recover_from_log() stands. */
  datatype Pc =
    | Idle                    // neither runs
    | WriteLog(tail: nat)     // commit: write_log has written that many log blocks
    | Install(tail: nat)      // commit: header written, that many blocks installed
    | Finish                  // commit: returned, committing not yet cleared
    | ReadHead                // recovery: header not read yet
    | Reinstall(tail: nat)    // recovery: that many blocks installed

  /** A process inside sys_sync: the commit number it waits for, and how many operations had ended. */
  datatype Sync = NoSync | Syncing(target: nat, need: nat)

  datatype State = State(
    disk: seq<Block>, start: nat,
    bufs: seq<Buf>,
    lh: seq<int>, outstanding: int, committing: bool, ncommit: nat,
    ops: seq<Op>, worker: int, pc: Pc,
    ended: seq<(nat, nat)>, syncs: seq<Sync>)

  predicate Recovering(s: State) { s.pc.ReadHead? || s.pc.Reinstall? }

  function Booted(disk: seq<Block>, start: nat): State {
    State(disk, start, seq(NBUF, i => EMPTY_BUF), [], 0, false, 0,
          seq(NPROC, i => NoOp), 0, ReadHead, [], seq(NPROC, i => NoSync))
  }

  // ---------------------------------------------------------------- steps

  datatype Step =
    | BeginOp(p: int)
    | EndOp(p: int)
    | BgetHit(p: int, i: int, b: int)
    | BgetMiss(p: int, i: int, b: int)
    | LockBuf(p: int, i: int)
    | ReadBuf(p: int, i: int)
    | Modify(p: int, i: int, data: Block)
    | LogWrite(p: int, i: int)
    | UnlockBuf(p: int, i: int)
    | DropBuf(p: int, i: int)
    | CommitLog(i: int, j: int)
    | CommitEmpty
    | CommitHead(i: int)
    | CommitInstall(i: int, j: int)
    | CommitClear(i: int)
    | CommitDone
    | RecoverHead(i: int)
    | RecoverInstall(i: int, j: int)
    | RecoverClear(i: int)
    | SyncCall(p: int)
    | SyncReturn(p: int)
    | Crash

  predicate IsProc(p: int) { 0 <= p < NPROC }

  predicate HasBuf(s: State, i: int) { 0 <= i < |s.bufs| }

  /** p holds the sleep lock of buffer i. */
  predicate Holds(s: State, p: int, i: int) {
    HasBuf(s, i) && s.bufs[i].holder == p
  }

  /** p holds buffer i, which caches block b. */
  predicate HoldsBlock(s: State, p: int, i: int, b: int) {
    Holds(s, p, i) && s.bufs[i].dev == ROOTDEV && s.bufs[i].blockno == b && s.bufs[i].valid
  }

  predicate Caches(x: Buf, b: int) { x.dev == ROOTDEV && x.blockno == b }

  /** Only the process running commit or recovery touches the log area; during recovery it is alone. */
  predicate MayGet(s: State, p: int, b: int) {
    && IsProc(p) && 0 <= b < |s.disk|
    && (Recovering(s) ==> p == s.worker)
    && (Home(b, s.start) || ((s.committing || Recovering(s)) && p == s.worker))
  }

  predicate MayRun(s: State, p: int) {
    IsProc(p) && (Recovering(s) ==> p == s.worker)
  }

  ghost predicate Enabled(s: State, step: Step) {
    match step
    case BeginOp(p) =>
      && IsProc(p) && |s.ops| == NPROC && s.ops[p].NoOp? && !Recovering(s)
      && !s.committing && |s.lh| + (s.outstanding + 1) * MAXOPBLOCKS <= LOGBLOCKS
    case EndOp(p) =>
      && IsProc(p) && |s.ops| == NPROC && s.ops[p].InOp?
      && (forall i :: HasBuf(s, i) && s.bufs[i].holder == p ==> !s.bufs[i].dirty)
    case BgetHit(p, i, b) =>
      && MayGet(s, p, b) && HasBuf(s, i) && Caches(s.bufs[i], b) && p !in s.bufs[i].users
    case BgetMiss(p, i, b) =>
      && MayGet(s, p, b) && HasBuf(s, i) && s.bufs[i].refcnt == 0
      && (forall j :: HasBuf(s, j) ==> !Caches(s.bufs[j], b))
    case LockBuf(p, i) =>
      && MayRun(s, p) && HasBuf(s, i) && p in s.bufs[i].users && s.bufs[i].holder == NOBODY
    case ReadBuf(p, i) =>
      && MayRun(s, p) && Holds(s, p, i) && !s.bufs[i].valid && 0 <= s.bufs[i].blockno < |s.disk|
    case Modify(p, i, data) =>
      && IsProc(p) && |s.ops| == NPROC && s.ops[p].InOp? && Holds(s, p, i) && s.bufs[i].valid
      && Home(s.bufs[i].blockno, s.start)
    case LogWrite(p, i) =>
      && IsProc(p) && |s.ops| == NPROC && s.ops[p].InOp? && Holds(s, p, i) && s.bufs[i].valid
      && s.ops[p].appended < MAXOPBLOCKS && Home(s.bufs[i].blockno, s.start)
    case UnlockBuf(p, i) =>
      && MayRun(s, p) && Holds(s, p, i) && !s.bufs[i].dirty
    case DropBuf(p, i) =>
      && MayRun(s, p) && HasBuf(s, i) && p in s.bufs[i].users && s.bufs[i].holder != p
    case CommitLog(i, j) =>
      && s.pc.WriteLog? && s.pc.tail < |s.lh| && i != j
      && LogFits(s.disk, s.start) && |s.lh| <= LOGBLOCKS
      && HoldsBlock(s, s.worker, i, s.start + 1 + s.pc.tail)
      && HoldsBlock(s, s.worker, j, s.lh[s.pc.tail])
    case CommitEmpty => s.pc.WriteLog? && s.lh == []
    case CommitHead(i) =>
      && s.pc.WriteLog? && s.lh != [] && s.pc.tail == |s.lh| && |s.lh| <= LOGBLOCKS
      && LogFits(s.disk, s.start) && HoldsBlock(s, s.worker, i, s.start)
    case CommitInstall(i, j) =>
      && s.pc.Install? && s.pc.tail < |s.lh| && i != j && 0 <= s.lh[s.pc.tail] < |s.disk|
      && HoldsBlock(s, s.worker, i, s.start + 1 + s.pc.tail)
      && HoldsBlock(s, s.worker, j, s.lh[s.pc.tail])
    case CommitClear(i) =>
      && s.pc.Install? && s.pc.tail == |s.lh|
      && LogFits(s.disk, s.start) && HoldsBlock(s, s.worker, i, s.start)
    case CommitDone => s.pc.Finish?
    case RecoverHead(i) =>
      && s.pc.ReadHead? && HoldsBlock(s, s.worker, i, s.start)
      && 0 <= HeadCount(s.bufs[i].data) <= LOGBLOCKS
    case RecoverInstall(i, j) =>
      && s.pc.Reinstall? && s.pc.tail < |s.lh| && i != j && 0 <= s.lh[s.pc.tail] < |s.disk|
      && HoldsBlock(s, s.worker, i, s.start + 1 + s.pc.tail)
      && HoldsBlock(s, s.worker, j, s.lh[s.pc.tail])
    case RecoverClear(i) =>
      && s.pc.Reinstall? && s.pc.tail == |s.lh|
      && LogFits(s.disk, s.start) && HoldsBlock(s, s.worker, i, s.start)
    case SyncCall(p) =>
      && IsProc(p) && |s.syncs| == NPROC && s.syncs[p].NoSync? && !Recovering(s)
      && (s.committing || s.outstanding > 0)
    case SyncReturn(p) =>
      && IsProc(p) && |s.syncs| == NPROC && s.syncs[p].Syncing? && s.ncommit >= s.syncs[p].target
    case Crash => true
  }

  /** bget, found: one more reference. */
  function GetHit(s: State, p: int, i: int): State
    requires HasBuf(s, i)
  {
    var x := s.bufs[i];
    s.(bufs := s.bufs[i := x.(refcnt := x.refcnt + 1, users := x.users + {p})])
  }

  /** bget, recycled: the buffer changes identity and holds nothing yet. */
  function GetMiss(s: State, p: int, i: int, b: int): State
    requires HasBuf(s, i)
  {
    s.(bufs := s.bufs[i := s.bufs[i].(dev := ROOTDEV, blockno := b, valid := false, refcnt := 1, users := {p})])
  }

  /** log_write: absorb a block already in the log, else append it and pin its buffer. */
  function Logged(s: State, p: int, i: int): State
    requires IsProc(p) && |s.ops| == NPROC && s.ops[p].InOp? && HasBuf(s, i)
  {
    var x := s.bufs[i];
    if x.blockno in s.lh then s.(bufs := s.bufs[i := x.(dirty := false)])
    else s.(lh := s.lh + [x.blockno],
            bufs := s.bufs[i := x.(dirty := false, refcnt := x.refcnt + 1)],
            ops := s.ops[p := InOp(s.ops[p].appended + 1, s.ops[p].began)])
  }

  /** end_op, first section: the last operation out starts the commit. */
  function Ended(s: State, p: int): State
    requires IsProc(p) && |s.ops| == NPROC && s.ops[p].InOp?
  {
    var s1 := s.(outstanding := s.outstanding - 1, ops := s.ops[p := NoOp],
                 ended := s.ended + [(s.ops[p].began, s.ncommit)]);
    if s1.outstanding == 0 then
      s1.(committing := true, worker := p, pc := WriteLog(0))
    else s1
  }

  /** memmove into buffer i and bwrite it. */
  function Written(s: State, i: int, data: Block): State
    requires HasBuf(s, i) && 0 <= s.bufs[i].blockno < |s.disk|
  {
    s.(bufs := s.bufs[i := s.bufs[i].(data := data)], disk := s.disk[s.bufs[i].blockno := data])
  }

  function Unpinned(s: State, i: int): State
    requires HasBuf(s, i)
  {
    s.(bufs := s.bufs[i := s.bufs[i].(refcnt := s.bufs[i].refcnt - 1)])
  }

  ghost function Apply(s: State, step: Step): State
    requires Enabled(s, step)
  {
    match step
    case BeginOp(p) => s.(outstanding := s.outstanding + 1, ops := s.ops[p := InOp(0, s.ncommit)])
    case EndOp(p) => Ended(s, p)
    case BgetHit(p, i, b) => GetHit(s, p, i)
    case BgetMiss(p, i, b) => GetMiss(s, p, i, b)
    case LockBuf(p, i) => s.(bufs := s.bufs[i := s.bufs[i].(holder := p)])
    case ReadBuf(p, i) => s.(bufs := s.bufs[i := s.bufs[i].(valid := true, data := s.disk[s.bufs[i].blockno])])
    case Modify(p, i, data) => s.(bufs := s.bufs[i := s.bufs[i].(data := data, dirty := true)])
    case LogWrite(p, i) => Logged(s, p, i)
    case UnlockBuf(p, i) => s.(bufs := s.bufs[i := s.bufs[i].(holder := NOBODY)])
    case DropBuf(p, i) =>
      var x := s.bufs[i];
      s.(bufs := s.bufs[i := x.(refcnt := x.refcnt - 1, users := x.users - {p})])
    case CommitLog(i, j) => Written(s, i, s.bufs[j].data).(pc := WriteLog(s.pc.tail + 1))
    case CommitEmpty => s.(pc := Finish)
    case CommitHead(i) => Written(s, i, HeadImage(s.bufs[i].data, s.lh)).(pc := Install(0))
    case CommitInstall(i, j) => Unpinned(Written(s, j, s.bufs[i].data), j).(pc := Install(s.pc.tail + 1))
    case CommitClear(i) => Written(s, i, HeadImage(s.bufs[i].data, [])).(lh := [], pc := Finish)
    case CommitDone => s.(committing := false, ncommit := s.ncommit + 1, pc := Idle)
    case RecoverHead(i) => s.(lh := HeadList(s.bufs[i].data), pc := Reinstall(0))
    case RecoverInstall(i, j) => Written(s, j, s.bufs[i].data).(pc := Reinstall(s.pc.tail + 1))
    case RecoverClear(i) => Written(s, i, HeadImage(s.bufs[i].data, [])).(lh := [], pc := Idle)
    case SyncCall(p) => s.(syncs := s.syncs[p := Syncing(s.ncommit + 1, |s.ended|)])
    case SyncReturn(p) => s.(syncs := s.syncs[p := NoSync])
    case Crash => Booted(s.disk, s.start)
  }

  ghost predicate Next(s: State, s': State) {
    exists step :: Enabled(s, step) && s' == Apply(s, step)
  }

  ghost predicate Init(s: State) {
    GoodHead(s.disk, s.start) && s == Booted(s.disk, s.start)
  }

  /** A finite run of the machine from a boot. */
  ghost predicate IsRun(run: seq<State>) {
    && |run| > 0 && Init(run[0])
    && (forall k :: 0 <= k < |run| - 1 ==> Next(run[k], run[k + 1]))
  }

  // ---------------------------------------------------------------- invariant

  /** How many operations are open. */
  function Open(ops: seq<Op>): nat {
    if ops == [] then 0 else (if ops[0].InOp? then 1 else 0) + Open(ops[1..])
  }

  /** Blocks the open operations may still append. */
  function Unused(ops: seq<Op>): int {
    if ops == [] then 0 else (if ops[0].InOp? then MAXOPBLOCKS - ops[0].appended else 0) + Unused(ops[1..])
  }

  /** Logged blocks whose home copy on disk is still the old one: each is pinned. */
  ghost function Unsettled(s: State): seq<int> {
    if Recovering(s) then []
    else if s.pc.Install? && s.pc.tail <= |s.lh| then s.lh[s.pc.tail..]
    else s.lh
  }

  ghost predicate Shape(s: State) {
    && LogFits(s.disk, s.start) && |s.bufs| == NBUF && |s.ops| == NPROC && |s.syncs| == NPROC
    && (s.pc != Idle ==> IsProc(s.worker))
    && (Recovering(s) || s.committing <==> s.pc != Idle)
    && (Recovering(s) ==> !s.committing)
    && GoodList(s.lh, s.disk, s.start)
    && (s.pc.WriteLog? || s.pc.Install? || s.pc.Reinstall? ==> s.pc.tail <= |s.lh|)
  }

  ghost predicate BufOk(s: State, i: int)
    requires HasBuf(s, i)
  {
    var x := s.bufs[i];
    && (x.dev == ROOTDEV ==> 0 <= x.blockno < |s.disk|)
    && (x.dev != ROOTDEV ==> x.users == {} && !x.valid)
    && (x.holder != NOBODY ==> x.holder in x.users)
    && (NOBODY !in x.users)
    && x.refcnt == |x.users| + (if x.dev == ROOTDEV && x.blockno in Unsettled(s) then 1 else 0)
    && (x.dev == ROOTDEV && x.valid && !x.dirty && x.blockno !in Unsettled(s) ==>
          x.data == s.disk[x.blockno])
  }

  ghost predicate Unique(s: State) {
    forall i, j | HasBuf(s, i) && HasBuf(s, j) && s.bufs[i].dev == s.bufs[j].dev == ROOTDEV ::
      s.bufs[i].blockno == s.bufs[j].blockno ==> i == j
  }

  /** Block b is cached with valid contents x. */
  ghost predicate Cached(s: State, b: int) {
    exists i :: HasBuf(s, i) && Caches(s.bufs[i], b) && s.bufs[i].valid
  }

  ghost predicate PinsOk(s: State) {
    forall k :: 0 <= k < |Unsettled(s)| ==> Cached(s, Unsettled(s)[k])
  }

  ghost predicate Clean(s: State) {
    forall i :: HasBuf(s, i) ==> !s.bufs[i].dirty
  }

  ghost predicate DirtyOk(s: State) {
    forall i :: HasBuf(s, i) && s.bufs[i].dirty ==>
      && s.bufs[i].dev == ROOTDEV && s.bufs[i].valid && Home(s.bufs[i].blockno, s.start)
      && IsProc(s.bufs[i].holder) && |s.ops| == NPROC && s.ops[s.bufs[i].holder].InOp?
  }

  ghost predicate Protocol(s: State) {
    && s.outstanding == Open(s.ops)
    && (forall p :: 0 <= p < |s.ops| && s.ops[p].InOp? ==>
          s.ops[p].appended <= MAXOPBLOCKS && s.ops[p].began == s.ncommit)
    && (s.pc != Idle ==> s.outstanding == 0)
    && (s.pc == Idle && s.outstanding == 0 ==> s.lh == [])
    && (s.pc == Finish || s.pc == ReadHead ==> s.lh == [])
    && (s.pc.Install? ==> s.lh != [])
    && (!Recovering(s) ==> |s.lh| + Unused(s.ops) <= LOGBLOCKS)
  }

  /** Log block k holds what every valid cached copy of lh[k] holds. */
  ghost predicate LogHoldsCached(s: State, k: int)
    requires Shape(s) && 0 <= k < |s.lh|
  {
    forall i :: HasBuf(s, i) && Caches(s.bufs[i], s.lh[k]) && s.bufs[i].valid ==>
      s.bufs[i].data == s.disk[s.start + 1 + k]
  }

  ghost predicate OnDisk(s: State)
    requires Shape(s)
  {
    && GoodHead(s.disk, s.start)
    && (s.pc.Idle? || s.pc.WriteLog? || s.pc.Finish? ==> HeadCount(s.disk[s.start]) == 0)
    && (s.pc.Install? || s.pc.Reinstall? ==> HeadList(s.disk[s.start]) == s.lh)
    && (s.pc.WriteLog? ==>
          forall k :: 0 <= k < s.pc.tail ==> LogHoldsCached(s, k))
    && (s.pc.Install? ==>
          forall k :: s.pc.tail <= k < |s.lh| ==> LogHoldsCached(s, k))
    && (s.pc.Install? || s.pc.Reinstall? ==>
          forall k :: 0 <= k < s.pc.tail ==> s.disk[s.lh[k]] == s.disk[s.start + 1 + k])
  }

  ghost predicate SyncOk(s: State) {
    && (Recovering(s) ==> s.ended == [])
    && (forall k :: 0 <= k < |s.ended| ==> s.ended[k].0 == s.ended[k].1 <= s.ncommit)
    && (s.pc == Idle && s.outstanding == 0 ==> forall k :: 0 <= k < |s.ended| ==> s.ended[k].1 < s.ncommit)
    && (forall p :: 0 <= p < |s.syncs| && s.syncs[p].Syncing? ==>
          && s.syncs[p].need <= |s.ended|
          && (forall k :: 0 <= k < s.syncs[p].need ==> s.ended[k].1 < s.syncs[p].target))
  }

  ghost predicate Inv(s: State) {
    && Shape(s)
    && (forall i :: HasBuf(s, i) ==> BufOk(s, i))
    && Unique(s)
    && PinsOk(s)
    && DirtyOk(s)
    && Protocol(s)
    && OnDisk(s)
    && SyncOk(s)
  }

  // ---------------------------------------------------------------- the store it implements

  /**
    The specification: a durable store and the current contents.  Operations write to
    the current contents; a commit makes them durable at once, and only while no
    operation is open; a crash goes back to what is durable.
   */
  datatype Store = Store(durable: map<int, Block>, current: map<int, Block>,
                         active: map<int, nat>, ended: seq<(nat, nat)>, epoch: nat)

  datatype Event = Nothing | Begin(p: int) | Write(p: int, b: int, data: Block) | End(p: int) | Commit | Lost

  ghost predicate StoreNext(a: Store, a': Store, e: Event) {
    match e
    case Nothing => a' == a
    case Begin(p) => p !in a.active && a' == a.(active := a.active[p := a.epoch])
    case Write(p, b, data) => p in a.active && b in a.current && a' == a.(current := a.current[b := data])
    case End(p) => p in a.active && a' == a.(active := a.active - {p}, ended := a.ended + [(a.active[p], a.epoch)])
    case Commit => a.active == map[] && a' == a.(durable := a.current, epoch := a.epoch + 1)
    case Lost => a' == Store(a.durable, a.durable, map[], [], 0)
  }

  /** What a reader of block b finds: the cached copy, else the disk's. */
  ghost function Current(s: State, b: int): Block
    requires 0 <= b < |s.disk|
  {
    if Cached(s, b) then
      var i :| HasBuf(s, i) && Caches(s.bufs[i], b) && s.bufs[i].valid;
      s.bufs[i].data
    else s.disk[b]
  }

  ghost function CurrentMap(s: State): map<int, Block> {
    map b | 0 <= b < |s.disk| && Home(b, s.start) :: Current(s, b)
  }

  ghost function Active(s: State): map<int, nat> {
    map p | 0 <= p < |s.ops| && s.ops[p].InOp? :: s.ops[p].began
  }

  ghost function Abs(s: State): Store
    requires GoodHead(s.disk, s.start)
  {
    Store(Recovered(s.disk, s.start),
          if Recovering(s) then Recovered(s.disk, s.start) else CurrentMap(s),
          Active(s), s.ended,
          s.ncommit + if s.pc.Install? || s.pc.Finish? then 1 else 0)
  }

  /** The event of the specification that a step performs. */
  ghost function EventOf(s: State, step: Step): Event
    requires Enabled(s, step)
  {
    match step
    case BeginOp(p) => Begin(p)
    case EndOp(p) => End(p)
    case Modify(p, i, data) => Write(p, s.bufs[i].blockno, data)
    case CommitEmpty => Commit
    case CommitHead(i) => Commit
    case Crash => Lost
    case _ => Nothing
  }
}
