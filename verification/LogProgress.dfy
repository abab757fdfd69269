/**
  What the log and the buffer cache can always do: bread and brelse, a whole commit, recovery.
  A commit can be finished exactly if the log holds fewer blocks than there are buffers, and a
  log that holds as many is within reach.
 */
module LogProgress {
  import opened Params
  import opened Blocks
  import opened LogMachine
  import LogProof

  /** The steps, taken one after the other with nothing in between, lead from s to t. */
  ghost predicate Leads(s: State, steps: seq<Step>, t: State)
    decreases |steps|
  {
    if steps == [] then t == s else Enabled(s, steps[0]) && Leads(Apply(s, steps[0]), steps[1..], t)
  }

  lemma {:induction false} LeadsThen(s: State, a: seq<Step>, t: State, b: seq<Step>, u: State)
    requires Leads(s, a, t) && Leads(t, b, u)
    ensures Leads(s, a + b, u)
    decreases |a|
  {
    hide Enabled, Apply;
    if a == [] {
      assert a + b == b;
    } else {
      LeadsThen(Apply(s, a[0]), a[1..], t, b, u);
      assert (a + b)[0] == a[0] && (a + b)[1..] == a[1..] + b;
    }
  }

  /** p's own doing: the steps of bread and brelse, of commit and of recovery. */
  predicate Own(step: Step, p: int) {
    || LogProof.LogStep(step)
    || ((step.BgetHit? || step.BgetMiss? || step.LockBuf? || step.ReadBuf? || step.UnlockBuf? || step.DropBuf?) &&
        step.p == p)
  }

  /** p can get from s to t by itself. */
  ghost predicate Walks(s: State, steps: seq<Step>, t: State, p: int) {
    Inv(s) && Inv(t) && Leads(s, steps, t) && forall k :: 0 <= k < |steps| ==> Own(steps[k], p)
  }

  /** Nothing of this shows in the store. */
  ghost predicate SameStore(s: State, t: State) {
    Inv(s) && Inv(t) && Abs(t) == Abs(s)
  }

  lemma WalksThen(s: State, a: seq<Step>, t: State, b: seq<Step>, u: State, p: int)
    requires Walks(s, a, t, p) && Walks(t, b, u, p)
    ensures Walks(s, a + b, u, p)
  {
    hide Inv, Own;
    LeadsThen(s, a, t, b, u);
  }

  lemma SameThen(s: State, t: State, u: State)
    requires SameStore(s, t) && SameStore(t, u)
    ensures SameStore(s, u)
  {
    hide Inv, Abs;
  }

  lemma WalksNone(s: State, p: int)
    requires Inv(s)
    ensures Walks(s, [], s, p) && SameStore(s, s)
  {
    hide Own;
  }

  lemma WalksOne(s: State, step: Step, p: int)
    requires Inv(s) && Enabled(s, step) && Own(step, p)
    ensures Walks(s, [step], Apply(s, step), p)
    ensures EventOf(s, step).Nothing? ==> SameStore(s, Apply(s, step))
  {
    hide Inv, Enabled, Apply, Own, Abs;
    LogProof.StepRefines(s, step);
    assert Leads(Apply(s, step), [step][1..], Apply(s, step));
  }

  lemma BufFine(s: State, i: int)
    requires Inv(s) && HasBuf(s, i)
    ensures BufOk(s, i) && (s.bufs[i].dirty ==> IsProc(s.bufs[i].holder)) && |s.bufs| == NBUF
  {
  }

  // ---------------------------------------------------------------- bread, brelse

  /** Nobody is using a buffer of block b. */
  ghost predicate NotInUse(s: State, b: int) {
    forall j :: HasBuf(s, j) && Caches(s.bufs[j], b) ==> s.bufs[j].users == {}
  }

  /** There is a buffer for block b: one that caches it, or an unreferenced one. */
  ghost predicate Room(s: State, b: int) {
    exists j :: HasBuf(s, j) && (Caches(s.bufs[j], b) || s.bufs[j].refcnt == 0)
  }

  /** t is s with another buffer i. */
  ghost predicate OnlyBuf(s: State, t: State, i: int) {
    HasBuf(s, i) && HasBuf(t, i) && t == s.(bufs := s.bufs[i := t.bufs[i]])
  }

  lemma Bget(s: State, p: int, b: int) returns (i: int, step: Step)
    requires Inv(s) && MayGet(s, p, b) && NotInUse(s, b) && Room(s, b)
    ensures Enabled(s, step) && Own(step, p) && EventOf(s, step).Nothing? && OnlyBuf(s, Apply(s, step), i)
    ensures Caches(s.bufs[i], b) || s.bufs[i].refcnt == 0
    ensures var x, y := s.bufs[i], Apply(s, step).bufs[i];
      && Caches(y, b) && x.users == {} && y.users == {p} && y.holder == NOBODY && y.valid == (x.valid && Caches(x, b))
      && (y.valid ==> y.data == x.data)
  {
    if j :| HasBuf(s, j) && Caches(s.bufs[j], b) {
      i, step := j, BgetHit(p, j, b);
    } else {
      i :| HasBuf(s, i) && s.bufs[i].refcnt == 0;
      step := BgetMiss(p, i, b);
    }
    hide Inv;
    BufFine(s, i);
  }

  /**
    bread returns: whoever may have the block gets a locked buffer with its contents, if nobody
    else uses the block and there is a buffer for it.
   */
  lemma Bread(s: State, p: int, b: int) returns (i: int, steps: seq<Step>, t: State)
    requires Inv(s) && MayGet(s, p, b) && NotInUse(s, b) && Room(s, b)
    ensures Walks(s, steps, t, p) && SameStore(s, t) && OnlyBuf(s, t, i) && HoldsBlock(t, p, i, b)
    ensures s.bufs[i].users == {} && t.bufs[i].users == {p} && (Caches(s.bufs[i], b) || s.bufs[i].refcnt == 0)
    ensures t.bufs[i].data == if s.bufs[i].valid && Caches(s.bufs[i], b) then s.bufs[i].data else s.disk[b]
  {
    hide Inv, Walks, SameStore, Own;
    var get;
    i, get := Bget(s, p, b);
    WalksOne(s, get, p);
    var s1 := Apply(s, get);
    OwnSteps(p, i);
    WalksInv(s, [get], s1, p);
    WalksOne(s1, LockBuf(p, i), p);
    var s2 := Apply(s1, LockBuf(p, i));
    WalksThen(s, [get], s1, [LockBuf(p, i)], s2, p);
    SameThen(s, s1, s2);
    steps, t := [get] + [LockBuf(p, i)], s2;
    if !s2.bufs[i].valid {
      WalksInv(s, steps, s2, p);
      WalksOne(s2, ReadBuf(p, i), p);
      t := Apply(s2, ReadBuf(p, i));
      WalksThen(s, steps, s2, [ReadBuf(p, i)], t, p);
      SameThen(s, s2, t);
      steps := steps + [ReadBuf(p, i)];
    }
  }

  lemma OwnSteps(p: int, i: int)
    ensures Own(LockBuf(p, i), p) && Own(ReadBuf(p, i), p) && Own(UnlockBuf(p, i), p) && Own(DropBuf(p, i), p)
  {
  }

  lemma WalksInv(s: State, steps: seq<Step>, t: State, p: int)
    requires Walks(s, steps, t, p)
    ensures Inv(s) && Inv(t)
  {
  }

  /** brelse gives the buffer back: unlocked, with one reference and one user less. */
  lemma Brelse(s: State, p: int, i: int) returns (steps: seq<Step>, t: State)
    requires Inv(s) && MayRun(s, p) && Holds(s, p, i) && !s.bufs[i].dirty
    ensures Walks(s, steps, t, p) && SameStore(s, t) && OnlyBuf(s, t, i)
    ensures var x := s.bufs[i];
      t.bufs[i] == x.(holder := NOBODY, refcnt := x.refcnt - 1, users := x.users - {p})
  {
    hide Inv, Walks, SameStore, Own;
    BufFine(s, i);
    OwnSteps(p, i);
    WalksOne(s, UnlockBuf(p, i), p);
    var s1 := Apply(s, UnlockBuf(p, i));
    WalksInv(s, [UnlockBuf(p, i)], s1, p);
    WalksOne(s1, DropBuf(p, i), p);
    t := Apply(s1, DropBuf(p, i));
    steps := [UnlockBuf(p, i)] + [DropBuf(p, i)];
    WalksThen(s, [UnlockBuf(p, i)], s1, [DropBuf(p, i)], t, p);
    SameThen(s, s1, t);
  }

  // ---------------------------------------------------------------- room for one more buffer

  /** Between two rounds: no process uses a buffer. */
  ghost predicate Quiet(s: State) {
    forall i :: HasBuf(s, i) ==> s.bufs[i].users == {}
  }

  /** A list without repetition fits where each of its elements is. */
  lemma {:induction false} ListFits(a: seq<int>, b: seq<int>)
    requires Distinct(a) && forall k :: 0 <= k < |a| ==> a[k] in b
    ensures |a| <= |b|
  {
    if a != [] {
      var x := a[0];
      var i :| 0 <= i < |b| && b[i] == x;
      var rest := b[..i] + b[i + 1..];
      forall k | 0 <= k < |a[1..]| ensures a[1..][k] in rest {
        var j :| 0 <= j < |b| && b[j] == a[k + 1];
        assert rest[if j < i then j else j - 1] == a[k + 1];
      }
      ListFits(a[1..], rest);
    }
  }

  ghost function BlockNos(bufs: seq<Buf>): seq<int> {
    seq(|bufs|, i requires 0 <= i < |bufs| => bufs[i].blockno)
  }

  /** A cache with fewer pinned blocks than buffers has an unreferenced one when nobody uses any. */
  lemma SpareBuffer(s: State)
    requires Inv(s) && Quiet(s) && |Unsettled(s)| < NBUF
    ensures exists j :: HasBuf(s, j) && s.bufs[j].refcnt == 0
  {
    if forall j :: HasBuf(s, j) ==> s.bufs[j].refcnt != 0 {
      AllPinned(s);
      ListFits(BlockNos(s.bufs), Unsettled(s));
    }
  }

  lemma AllPinned(s: State)
    requires Inv(s) && Quiet(s) && forall j :: HasBuf(s, j) ==> s.bufs[j].refcnt != 0
    ensures |s.bufs| == NBUF && Distinct(BlockNos(s.bufs))
    ensures forall j :: HasBuf(s, j) ==> BlockNos(s.bufs)[j] in Unsettled(s)
  {
    hide PinsOk, DirtyOk, Protocol, OnDisk, SyncOk, Unsettled;
    forall j | HasBuf(s, j) ensures s.bufs[j].dev == ROOTDEV && s.bufs[j].blockno in Unsettled(s) {
      assert BufOk(s, j);
    }
  }

  // ---------------------------------------------------------------- one round

  /** The loops of write_log and install_trans. */
  predicate InLoop(s: State) { s.pc.WriteLog? || s.pc.Install? || s.pc.Reinstall? }

  /** The step of the round, with the log block in buffer i and the home block in buffer j. */
  function RoundStep(s: State, i: int, j: int): Step
    requires InLoop(s)
  {
    if s.pc.WriteLog? then CommitLog(i, j) else if s.pc.Install? then CommitInstall(i, j) else RecoverInstall(i, j)
  }

  /** The same call of commit or recovery. */
  ghost predicate SameWork(s: State, t: State) {
    && t.lh == s.lh && t.worker == s.worker && t.start == s.start && |t.disk| == |s.disk| && t.ncommit == s.ncommit
    && t.committing == s.committing && t.outstanding == s.outstanding
  }

  /** The same loop of it, n rounds on. */
  ghost predicate LoopOn(s: State, t: State, n: int) {
    && InLoop(s) && InLoop(t) && t.pc.tail == s.pc.tail + n
    && (t.pc.WriteLog? <==> s.pc.WriteLog?) && (t.pc.Install? <==> s.pc.Install?)
  }

  /** Buffers have the same users, holders and blocks. */
  ghost predicate SameHolders(s: State, t: State) {
    |t.bufs| == |s.bufs| && forall i :: HasBuf(s, i) ==>
      && t.bufs[i].users == s.bufs[i].users && t.bufs[i].holder == s.bufs[i].holder
      && t.bufs[i].dirty == s.bufs[i].dirty
  }

  /** Ready for a round of one of the loops: there is a buffer for the log block. */
  ghost predicate Ready(s: State) {
    && Inv(s) && Quiet(s) && InLoop(s) && s.pc.tail < |s.lh| && (Recovering(s) || |s.lh| < NBUF)
  }

  lemma RoundBlocks(s: State)
    requires Ready(s)
    ensures IsProc(s.worker) && MayGet(s, s.worker, s.start + 1 + s.pc.tail) && MayGet(s, s.worker, s.lh[s.pc.tail])
    ensures s.start + 1 + s.pc.tail != s.lh[s.pc.tail] && |s.bufs| == NBUF
    ensures |Unsettled(s)| < NBUF && (!Recovering(s) ==> Cached(s, s.lh[s.pc.tail]))
    ensures (Recovering(s) ==> Unsettled(s) == [])
    ensures s.outstanding == 0 && Clean(s)
  {
    LogProof.QuietIsClean(s);
    hide BufOk, Unique, DirtyOk, OnDisk, SyncOk;
    if !Recovering(s) {
      var k := if s.pc.Install? then 0 else s.pc.tail;
      assert Unsettled(s)[k] == s.lh[s.pc.tail];
    }
  }

  /** With the log block in buffer i, there is a buffer for the home block too. */
  lemma SecondRoom(s: State, t: State, i: int, b: int)
    requires Ready(s) && b == s.lh[s.pc.tail] && OnlyBuf(s, t, i) && Caches(t.bufs[i], s.start + 1 + s.pc.tail)
    requires Caches(s.bufs[i], s.start + 1 + s.pc.tail) || s.bufs[i].refcnt == 0
    ensures NotInUse(t, b) && Room(t, b)
  {
    RoundBlocks(s);
    if Recovering(s) {
      var j := if i == 0 then 1 else 0;
      BufFine(s, j);
      assert HasBuf(t, j) && t.bufs[j].refcnt == 0;
    } else {
      var j :| HasBuf(s, j) && Caches(s.bufs[j], b) && s.bufs[j].valid;
      PinnedCounts(s, j);
      assert HasBuf(t, j) && Caches(t.bufs[j], b);
    }
  }

  lemma PinnedCounts(s: State, j: int)
    requires Ready(s) && !Recovering(s) && HasBuf(s, j) && Caches(s.bufs[j], s.lh[s.pc.tail])
    ensures s.bufs[j].refcnt > 0
  {
    BufFine(s, j);
    hide Inv;
    var k := if s.pc.Install? then 0 else s.pc.tail;
    assert Unsettled(s)[k] == s.lh[s.pc.tail];
  }

  lemma RoundEnabled(s: State, i: int, j: int)
    requires Inv(s) && InLoop(s) && s.pc.tail < |s.lh| && IsProc(s.worker)
    requires HoldsBlock(s, s.worker, i, s.start + 1 + s.pc.tail) && HoldsBlock(s, s.worker, j, s.lh[s.pc.tail])
    requires s.start + 1 + s.pc.tail != s.lh[s.pc.tail]
    ensures Enabled(s, RoundStep(s, i, j)) && EventOf(s, RoundStep(s, i, j)).Nothing?
    ensures var t := Apply(s, RoundStep(s, i, j)); SameWork(s, t) && SameHolders(s, t) && LoopOn(s, t, 1)
  {
    hide BufOk, Unique, PinsOk, DirtyOk, Protocol, OnDisk, SyncOk;
  }

  /** p uses the buffers i and j, and holds them; nobody uses any other. */
  ghost predicate UsesTwo(s: State, p: int, i: int, j: int) {
    && i != j && Holds(s, p, i) && Holds(s, p, j) && s.bufs[i].users == {p} && s.bufs[j].users == {p}
    && forall k :: HasBuf(s, k) && k != i && k != j ==> s.bufs[k].users == {}
  }

  lemma ReadBoth(s: State) returns (i: int, j: int, steps: seq<Step>, t: State)
    requires Ready(s)
    ensures Walks(s, steps, t, s.worker) && SameStore(s, t) && SameWork(s, t) && t.pc == s.pc
    ensures UsesTwo(t, s.worker, i, j)
    ensures HoldsBlock(t, s.worker, i, s.start + 1 + s.pc.tail) && HoldsBlock(t, s.worker, j, s.lh[s.pc.tail])
  {
    RoundBlocks(s);
    SpareBuffer(s);
    hide Inv, Walks, SameStore, Own, Unsettled, Clean;
    var w, a, b := s.worker, s.start + 1 + s.pc.tail, s.lh[s.pc.tail];
    var steps1, steps2, s1;
    i, steps1, s1 := Bread(s, w, a);
    SecondRoom(s, s1, i, b);
    WalksInv(s, steps1, s1, w);
    hide Room, NotInUse, Ready, MayGet;
    j, steps2, t := Bread(s1, w, b);
    WalksThen(s, steps1, s1, steps2, t, w);
    SameThen(s, s1, t);
    TwoHeld(s, s1, t, w, i, j, a, b);
    steps := steps1 + steps2;
  }

  lemma TwoHeld(s: State, s1: State, t: State, p: int, i: int, j: int, a: int, b: int)
    requires Quiet(s) && OnlyBuf(s, s1, i) && OnlyBuf(s1, t, j) && HoldsBlock(s1, p, i, a) && HoldsBlock(t, p, j, b)
    requires s1.bufs[i].users == {p} && s1.bufs[j].users == {} && t.bufs[j].users == {p}
    ensures UsesTwo(t, p, i, j) && HoldsBlock(t, p, i, a) && SameWork(s, t) && t.pc == s.pc
  {
    assert i != j;
    assert forall k :: HasBuf(s, k) && k != i && k != j ==> t.bufs[k] == s.bufs[k];
  }

  lemma ReleaseBoth(s: State, i: int, j: int) returns (steps: seq<Step>, t: State)
    requires Inv(s) && s.outstanding == 0 && IsProc(s.worker) && UsesTwo(s, s.worker, i, j)
    ensures Walks(s, steps, t, s.worker) && SameStore(s, t) && SameWork(s, t) && t.pc == s.pc && Quiet(t)
  {
    Undirtied(s);
    hide Inv, Walks, SameStore, Own;
    var w := s.worker;
    var steps1, s1 := Brelse(s, w, j);
    WalksInv(s, steps1, s1, w);
    var steps2;
    steps2, t := Brelse(s1, w, i);
    WalksThen(s, steps1, s1, steps2, t, w);
    SameThen(s, s1, t);
    steps := steps1 + steps2;
  }

  lemma StillTwo(s: State, t: State, p: int, i: int, j: int)
    requires UsesTwo(s, p, i, j) && SameHolders(s, t)
    ensures UsesTwo(t, p, i, j)
  {
  }

  /** A round: read both blocks, copy, write, release both. */
  lemma Round(s: State) returns (steps: seq<Step>, t: State)
    requires Ready(s)
    ensures Walks(s, steps, t, s.worker) && SameStore(s, t) && SameWork(s, t) && Quiet(t) && LoopOn(s, t, 1)
  {
    RoundBlocks(s);
    assert InLoop(s) && s.pc.tail < |s.lh|;
    hide Inv, Walks, SameStore, Own, Unsettled, Clean, Quiet, Enabled, Apply, MayGet, UsesTwo, SameHolders, Ready;
    var w := s.worker;
    var i, j, steps1, s1 := ReadBoth(s);
    WalksInv(s, steps1, s1, w);
    var steps2, s2 := Copy(s1, i, j);
    WalksThen(s, steps1, s1, steps2, s2, w);
    SameThen(s, s1, s2);
    WalksInv(s1, steps2, s2, w);
    var steps3;
    StillTwo(s1, s2, w, i, j);
    steps3, t := ReleaseBoth(s2, i, j);
    WalksThen(s, steps1 + steps2, s2, steps3, t, w);
    SameThen(s, s2, t);
    steps := steps1 + steps2 + steps3;
  }

  lemma Undirtied(s: State)
    requires Inv(s) && s.outstanding == 0
    ensures Clean(s) && (IsProc(s.worker) ==> MayRun(s, s.worker))
  {
    LogProof.QuietIsClean(s);
  }

  lemma Copy(s: State, i: int, j: int) returns (steps: seq<Step>, t: State)
    requires Inv(s) && InLoop(s) && s.pc.tail < |s.lh| && IsProc(s.worker)
    requires HoldsBlock(s, s.worker, i, s.start + 1 + s.pc.tail) && HoldsBlock(s, s.worker, j, s.lh[s.pc.tail])
    requires s.start + 1 + s.pc.tail != s.lh[s.pc.tail]
    ensures Walks(s, steps, t, s.worker) && SameStore(s, t)
    ensures SameWork(s, t) && SameHolders(s, t) && LoopOn(s, t, 1)
  {
    RoundEnabled(s, i, j);
    hide Inv, Walks, SameStore, Apply, Enabled;
    WalksOne(s, RoundStep(s, i, j), s.worker);
    steps, t := [RoundStep(s, i, j)], Apply(s, RoundStep(s, i, j));
  }

  /** The loop of write_log or install_trans runs to its end. */
  lemma {:induction false} Rounds(s: State) returns (steps: seq<Step>, t: State)
    requires Inv(s) && Quiet(s) && InLoop(s) && s.pc.tail <= |s.lh| && (Recovering(s) || |s.lh| < NBUF)
    ensures Walks(s, steps, t, s.worker) && SameStore(s, t) && SameWork(s, t) && Quiet(t)
    ensures LoopOn(s, t, |s.lh| - s.pc.tail)
    decreases |s.lh| - s.pc.tail
  {
    hide Inv, Walks, SameStore, Quiet;
    if s.pc.tail == |s.lh| {
      WalksNone(s, s.worker);
      steps, t := [], s;
    } else {
      var steps1, s1 := Round(s);
      WalksInv(s, steps1, s1, s.worker);
      var steps2, s2 := Rounds(s1);
      WalksThen(s, steps1, s1, steps2, s2, s.worker);
      SameThen(s, s1, s2);
      steps, t := steps1 + steps2, s2;
    }
  }

  // ---------------------------------------------------------------- the header

  /** Where commit or recovery is about to read or write the header. */
  predicate AtHead(s: State) {
    s.pc.ReadHead? || (InLoop(s) && s.pc.tail == |s.lh| && (s.pc.WriteLog? ==> s.lh != []))
  }

  function HeadStep(s: State, i: int): Step
    requires AtHead(s)
  {
    match s.pc
    case WriteLog(_) => CommitHead(i)
    case Install(_) => CommitClear(i)
    case ReadHead => RecoverHead(i)
    case _ => RecoverClear(i)
  }

  /** What the header step leaves behind. */
  ghost predicate HeadDone(s: State, t: State) {
    && t.worker == s.worker && t.ncommit == s.ncommit && t.committing == s.committing && t.outstanding == s.outstanding
    && t.start == s.start && |t.disk| == |s.disk|
    && match s.pc
       case WriteLog(_) => t.pc == Install(0) && t.lh == s.lh
       case Install(_) => t.pc == Finish && t.lh == []
       case ReadHead => t.pc == Reinstall(0) && |t.lh| <= LOGBLOCKS
       case _ => t.pc == Idle && t.lh == []
  }

  /** The current contents have become durable, and nothing else has happened to the store. */
  ghost predicate Committed(s: State, t: State) {
    Inv(s) && Inv(t) && Abs(t) == Abs(s).(durable := Abs(s).current, epoch := Abs(s).epoch + 1)
  }

  /** What shows in the store: the commit, if this is one. */
  ghost predicate Shows(s: State, t: State, commit: bool) {
    if commit then Committed(s, t) else SameStore(s, t)
  }

  lemma ShowsThen(s: State, t: State, u: State, a: bool, b: bool)
    requires Shows(s, t, a) && Shows(t, u, b) && !(a && b)
    ensures Shows(s, u, a || b)
  {
    hide Inv;
  }

  lemma StepShows(s: State, step: Step)
    requires Inv(s) && Enabled(s, step) && LogProof.LogStep(step)
    ensures Shows(s, Apply(s, step), step.CommitHead? || step.CommitEmpty?)
  {
    hide Inv, Apply, Enabled, Abs;
    LogProof.StepRefines(s, step);
  }

  lemma HeadEnabled(s: State, i: int)
    requires Inv(s) && AtHead(s) && HoldsBlock(s, s.worker, i, s.start) && !s.bufs[i].dirty
    ensures Enabled(s, HeadStep(s, i)) && LogProof.LogStep(HeadStep(s, i))
    ensures var t := Apply(s, HeadStep(s, i)); HeadDone(s, t) && SameHolders(s, t)
  {
    BufFine(s, i);
    hide Unique, PinsOk, DirtyOk, SyncOk, BufOk;
  }

  lemma HeadReady(s: State)
    requires Inv(s) && Quiet(s) && AtHead(s) && (Recovering(s) || |s.lh| < NBUF)
    ensures IsProc(s.worker) && MayGet(s, s.worker, s.start) && MayRun(s, s.worker) && s.outstanding == 0
    ensures NotInUse(s, s.start) && Room(s, s.start)
  {
    hide BufOk, Unique, DirtyOk, OnDisk, SyncOk, PinsOk;
    assert |Unsettled(s)| < NBUF;
    SpareBuffer(s);
  }

  /** Read the header block, use it, release it. */
  lemma Head(s: State) returns (steps: seq<Step>, t: State)
    requires Inv(s) && Quiet(s) && AtHead(s) && (Recovering(s) || |s.lh| < NBUF)
    ensures Walks(s, steps, t, s.worker) && Shows(s, t, s.pc.WriteLog?) && HeadDone(s, t) && Quiet(t)
  {
    HeadReady(s);
    hide Inv, Walks, SameStore, Own, Committed, Room, NotInUse, MayGet, Enabled, Apply, HeadDone;
    var w := s.worker;
    var i, steps1, s1 := Bread(s, w, s.start);
    WalksInv(s, steps1, s1, w);
    var steps2, s2 := UseHead(s, s1, i);
    WalksThen(s, steps1, s1, steps2, s2, w);
    ShowsThen(s, s1, s2, false, s.pc.WriteLog?);
    WalksInv(s1, steps2, s2, w);
    var steps3;
    HeadKeeps(s, s2);
    steps3, t := Drop(s2, w, i, s);
    WalksThen(s, steps1 + steps2, s2, steps3, t, w);
    ShowsThen(s, s2, t, s.pc.WriteLog?, false);
    steps := steps1 + steps2 + steps3;
  }

  lemma HeadKeeps(s: State, t: State)
    requires HeadDone(s, t)
    ensures t.worker == s.worker && t.outstanding == s.outstanding
  {
  }

  /** The header step, with the header block in buffer i. */
  lemma UseHead(s: State, s1: State, i: int) returns (steps: seq<Step>, t: State)
    requires AtHead(s) && s1 == s.(bufs := s1.bufs) && Inv(s1) && s.outstanding == 0
    requires HoldsBlock(s1, s.worker, i, s.start)
    ensures Walks(s1, steps, t, s.worker) && Shows(s1, t, s.pc.WriteLog?) && HeadDone(s, t) && SameHolders(s1, t)
  {
    Undirtied(s1);
    HeadEnabled(s1, i);
    var step := HeadStep(s1, i);
    hide Inv, Walks, SameStore, Own, Committed, Enabled, Apply;
    StepShows(s1, step);
    LogStepsOwn(step, s.worker);
    WalksOne(s1, step, s.worker);
    steps, t := [step], Apply(s1, step);
  }

  lemma LogStepsOwn(step: Step, p: int)
    requires LogProof.LogStep(step)
    ensures Own(step, p)
  {
  }

  /** Release the only buffer in use. */
  lemma Drop(s: State, p: int, i: int, was: State) returns (steps: seq<Step>, t: State)
    requires Inv(s) && s.outstanding == 0 && IsProc(p) && (Recovering(s) ==> p == s.worker) && HeadDone(was, s)
    requires Holds(s, p, i) && s.bufs[i].users == {p} && forall k :: HasBuf(s, k) && k != i ==> s.bufs[k].users == {}
    ensures Walks(s, steps, t, p) && Shows(s, t, false) && Quiet(t) && HeadDone(was, t)
  {
    Undirtied(s);
    hide Inv, Walks, SameStore, Own;
    steps, t := Brelse(s, p, i);
  }

  // ---------------------------------------------------------------- a whole commit, a whole recovery

  lemma Place(s: State)
    requires Inv(s) && s.pc != Idle
    ensures IsProc(s.worker) && s.outstanding == 0 && (InLoop(s) ==> s.pc.tail <= |s.lh|)
    ensures s.committing <==> !Recovering(s)
  {
    hide BufOk, Unique, DirtyOk, OnDisk, SyncOk, PinsOk;
  }

  lemma LoopEnds(s: State, t: State)
    requires InLoop(s) && LoopOn(s, t, |s.lh| - s.pc.tail) && SameWork(s, t) && (s.pc.WriteLog? ==> s.lh != [])
    ensures AtHead(t) && (t.pc.WriteLog? <==> s.pc.WriteLog?) && (t.pc.Install? <==> s.pc.Install?)
  {
  }

  /** A loop and the header step after it. */
  lemma LoopAndHead(s: State) returns (steps: seq<Step>, t: State)
    requires Inv(s) && Quiet(s) && InLoop(s) && (s.pc.WriteLog? ==> s.lh != []) && (Recovering(s) || |s.lh| < NBUF)
    ensures Walks(s, steps, t, s.worker) && Shows(s, t, s.pc.WriteLog?) && HeadDone(s, t) && Quiet(t)
  {
    Place(s);
    hide Inv, Walks, SameStore, Committed, Quiet;
    var steps1, s1 := Rounds(s);
    LoopEnds(s, s1);
    WalksInv(s, steps1, s1, s.worker);
    var steps2;
    steps2, t := Head(s1);
    WalksThen(s, steps1, s1, steps2, t, s.worker);
    ShowsThen(s, s1, t, false, s.pc.WriteLog?);
    steps := steps1 + steps2;
  }

  /** end_op after commit() has returned. */
  lemma Finishes(s: State) returns (steps: seq<Step>, t: State)
    requires Inv(s) && Quiet(s) && s.pc == Finish
    ensures Walks(s, steps, t, s.worker) && SameStore(s, t) && Quiet(t)
    ensures t.pc == Idle && !t.committing && t.ncommit == s.ncommit + 1
  {
    LogStepsOwn(CommitDone, s.worker);
    assert Enabled(s, CommitDone);
    hide Inv, Walks, SameStore;
    WalksOne(s, CommitDone, s.worker);
    steps, t := [CommitDone], Apply(s, CommitDone);
  }

  /**
    A commit can always be finished by the committing process alone, from wherever it stands between
    two rounds, if the log holds fewer blocks than there are buffers.  What was current is then durable.
   */
  lemma CommitFinishes(s: State) returns (steps: seq<Step>, t: State)
    requires Inv(s) && Quiet(s) && s.committing && |s.lh| < NBUF
    ensures Walks(s, steps, t, s.worker) && Quiet(t) && Shows(s, t, s.pc.WriteLog?)
    ensures t.pc == Idle && !t.committing && t.ncommit == s.ncommit + 1
    decreases if s.pc.WriteLog? then 2 else if s.pc.Install? then 1 else 0
  {
    NotIdle(s);
    hide Inv, Walks, SameStore, Committed, Quiet;
    if s.pc.Finish? {
      steps, t := Finishes(s);
      return;
    }
    var steps1, s1;
    if s.pc.WriteLog? && s.lh == [] {
      steps1, s1 := Empty(s);
    } else {
      steps1, s1 := LoopAndHead(s);
    }
    WalksInv(s, steps1, s1, s.worker);
    var steps2;
    steps2, t := CommitFinishes(s1);
    WalksThen(s, steps1, s1, steps2, t, s.worker);
    ShowsThen(s, s1, t, s.pc.WriteLog?, false);
    steps := steps1 + steps2;
  }

  lemma NotIdle(s: State)
    requires Inv(s) && s.committing
    ensures s.pc.WriteLog? || s.pc.Install? || s.pc.Finish?
  {
    hide BufOk, Unique, DirtyOk, OnDisk, SyncOk, PinsOk;
  }

  /** A commit of nothing. */
  lemma Empty(s: State) returns (steps: seq<Step>, t: State)
    requires Inv(s) && Quiet(s) && s.pc.WriteLog? && s.lh == []
    ensures Walks(s, steps, t, s.worker) && Shows(s, t, true) && Quiet(t) && t == s.(pc := Finish)
  {
    LogStepsOwn(CommitEmpty, s.worker);
    assert Enabled(s, CommitEmpty);
    hide Inv, Walks, SameStore, Committed;
    StepShows(s, CommitEmpty);
    WalksOne(s, CommitEmpty, s.worker);
    steps, t := [CommitEmpty], Apply(s, CommitEmpty);
  }

  /** Recovery can always be finished, from wherever it stands: it needs two buffers, and none is pinned. */
  lemma RecoveryFinishes(s: State) returns (steps: seq<Step>, t: State)
    requires Inv(s) && Quiet(s) && Recovering(s)
    ensures Walks(s, steps, t, s.worker) && Quiet(t) && SameStore(s, t) && t.pc == Idle && t.lh == []
    ensures t.outstanding == 0 && t.start == s.start && |t.disk| == |s.disk|
    decreases if s.pc.ReadHead? then 1 else 0
  {
    Place(s);
    hide Inv, Walks, SameStore, Committed, Quiet;
    if s.pc.Reinstall? {
      steps, t := LoopAndHead(s);
    } else {
      var steps1, s1 := Head(s);
      WalksInv(s, steps1, s1, s.worker);
      var steps2;
      steps2, t := RecoveryFinishes(s1);
      WalksThen(s, steps1, s1, steps2, t, s.worker);
      SameThen(s, s1, t);
      steps := steps1 + steps2;
    }
  }

  // ---------------------------------------------------------------- a log that fills the cache

  /** commit() has as many blocks to write as there are buffers, and is at the first. */
  ghost predicate Stuck(s: State) {
    Inv(s) && s.pc == WriteLog(0) && |s.lh| == NBUF
  }

  /** Every buffer is pinned with a block of the log, so none is left for the log area. */
  lemma StuckPinsAll(s: State, i: int)
    requires Stuck(s) && HasBuf(s, i)
    ensures s.bufs[i].dev == ROOTDEV && s.bufs[i].blockno in s.lh && s.bufs[i].refcnt > 0
    ensures Home(s.bufs[i].blockno, s.start)
  {
    BufFine(s, i);
    if s.bufs[i].dev != ROOTDEV || s.bufs[i].blockno !in s.lh {
      var rest := BlockNos(s.bufs[..i] + s.bufs[i + 1..]);
      forall k | 0 <= k < |s.lh| ensures s.lh[k] in rest { InOthers(s, i, k); }
      ListFits(s.lh, rest);
    }
  }

  lemma InOthers(s: State, i: int, k: int)
    requires Stuck(s) && HasBuf(s, i) && (s.bufs[i].dev != ROOTDEV || s.bufs[i].blockno !in s.lh) && 0 <= k < |s.lh|
    ensures s.lh[k] in BlockNos(s.bufs[..i] + s.bufs[i + 1..])
  {
    hide BufOk, Unique, DirtyOk, OnDisk, SyncOk, Protocol;
    assert Cached(s, Unsettled(s)[k]);
    var j :| HasBuf(s, j) && Caches(s.bufs[j], s.lh[k]) && s.bufs[j].valid;
    assert BlockNos(s.bufs[..i] + s.bufs[i + 1..])[if j < i then j else j - 1] == s.lh[k];
  }

  /** Nobody can help: short of a crash, no step of any process gets the commit off this point. */
  lemma StuckStays(s: State, step: Step)
    requires Stuck(s) && Enabled(s, step) && !step.Crash?
    ensures Stuck(Apply(s, step)) && Apply(s, step).lh == s.lh
  {
    LogProof.StepRefines(s, step);
    NoneOpen(s);
    hide Inv, Abs;
    if step.CommitLog? { StuckPinsAll(s, step.i); }
  }

  lemma NoneOpen(s: State)
    requires Inv(s) && s.pc != Idle
    ensures forall p :: 0 <= p < |s.ops| ==> s.ops[p].NoOp?
  {
    LogProof.QuietIsClean(s);
  }

  lemma CrashBoots(s: State, step: Step)
    requires Enabled(s, step)
    ensures step.Crash? ==> Apply(s, step) == Booted(s.disk, s.start)
  {
  }

  /** In no run does such a commit end, unless in a crash. */
  lemma {:induction false} StuckForever(run: seq<State>, a: nat, k: nat)
    requires IsRun(run) && a <= k < |run| && Stuck(run[a])
    requires forall j :: a <= j < k ==> run[j + 1] != Booted(run[j].disk, run[j].start)
    ensures Stuck(run[k]) && run[k].lh == run[a].lh
  {
    hide Stuck, Init, Apply, Enabled;
    if k > a {
      StuckForever(run, a, k - 1);
      assert Next(run[k - 1], run[k]);
      var step :| Enabled(run[k - 1], step) && run[k] == Apply(run[k - 1], step);
      assert !step.Crash? by { CrashBoots(run[k - 1], step); }
      StuckStays(run[k - 1], step);
    }
  }

  predicate NoCrash(steps: seq<Step>) { forall k :: 0 <= k < |steps| ==> !steps[k].Crash? }

  lemma {:induction false} StuckLeads(s: State, steps: seq<Step>, t: State)
    requires Stuck(s) && Leads(s, steps, t) && NoCrash(steps)
    ensures Stuck(t)
    decreases |steps|
  {
    hide Stuck, Apply, Enabled;
    if steps != [] {
      StuckStays(s, steps[0]);
      StuckLeads(Apply(s, steps[0]), steps[1..], t);
    }
  }

  /** Some sequence of steps, by whichever processes, ends the commit. */
  ghost predicate CanFinish(s: State) {
    exists steps, t :: Leads(s, steps, t) && NoCrash(steps) && t.pc == Idle
  }

  /** Exactly when a commit that begins with no buffer in use can end: if the log is shorter than the cache. */
  lemma CommitDecided(s: State)
    requires Inv(s) && Quiet(s) && s.pc == WriteLog(0)
    ensures CanFinish(s) <==> |s.lh| < NBUF
  {
    if |s.lh| < NBUF {
      Place(s);
      hide Inv;
      var steps, t := CommitFinishes(s);
      assert NoCrash(steps);
    } else {
      NotLonger(s);
      forall steps, t | Leads(s, steps, t) && NoCrash(steps) ensures t.pc != Idle { StuckLeads(s, steps, t); }
    }
  }

  lemma NotLonger(s: State)
    requires Inv(s)
    ensures |s.lh| <= LOGBLOCKS
  {
  }

  // ---------------------------------------------------------------- and how to get there

  /** Process p has logged block b. */
  ghost predicate LoggedBy(s: State, t: State, p: int, b: int) {
    && 0 <= p < |s.ops| && s.ops[p].InOp? && t.lh == s.lh + [b]
    && t.ops == s.ops[p := InOp(s.ops[p].appended + 1, s.ops[p].began)]
    && t.pc == s.pc && t.outstanding == s.outstanding && t.start == s.start && t.disk == s.disk
  }

  ghost predicate SameUsers(s: State, t: State) {
    |t.bufs| == |s.bufs| && forall k :: HasBuf(s, k) ==> t.bufs[k].users == s.bufs[k].users
  }

  /** One write of an operation: read block b, change it, log it, release it. */
  lemma LogsBlock(s: State, p: int, b: int) returns (steps: seq<Step>, t: State)
    requires Inv(s) && Quiet(s) && s.pc == Idle && IsProc(p) && |s.ops| == NPROC && s.ops[p].InOp?
    requires s.ops[p].appended < MAXOPBLOCKS && Home(b, s.start) && b < |s.disk| && b !in s.lh && |s.lh| < NBUF
    ensures Leads(s, steps, t) && NoCrash(steps) && Inv(t) && Quiet(t)
    ensures LoggedBy(s, t, p, b)
  {
    hide Inv, Own, Enabled, Apply, SameStore, Walks, Quiet, UsesOne, SameUsers, LoggedBy, NoCrash;
    var i, steps1, s1 := ReadsForChange(s, p, b);
    var steps2, s2 := Changes(s1, p, i);
    var steps3;
    StillIdle(s1, s2, p, b);
    steps3, t := ReleasesOne(s1, s2, p, i);
    LeadsThen(s, steps1, s1, steps2, s2);
    LeadsThen(s, steps1 + steps2, s2, steps3, t);
    NoCrashes(steps1, steps2);
    NoCrashes(steps1 + steps2, steps3);
    LoggedFrom(s, s1, s2, p, b);
    LoggedTo(s, s2, t, p, b);
    steps := steps1 + steps2 + steps3;
  }

  lemma NoCrashes(a: seq<Step>, b: seq<Step>)
    requires NoCrash(a) && NoCrash(b)
    ensures NoCrash(a + b)
  {
  }

  /** p uses buffer i and holds it; nobody uses any other. */
  ghost predicate UsesOne(s: State, p: int, i: int) {
    Holds(s, p, i) && s.bufs[i].users == {p} && forall k :: HasBuf(s, k) && k != i ==> s.bufs[k].users == {}
  }

  lemma LoggedFrom(s: State, s1: State, t: State, p: int, b: int)
    requires s1 == s.(bufs := s1.bufs) && LoggedBy(s1, t, p, b)
    ensures LoggedBy(s, t, p, b)
  {
  }

  lemma LoggedTo(s: State, s2: State, t: State, p: int, b: int)
    requires LoggedBy(s, s2, p, b) && t == s2.(bufs := t.bufs)
    ensures LoggedBy(s, t, p, b)
  {
  }

  lemma StillIdle(s: State, t: State, p: int, b: int)
    requires LoggedBy(s, t, p, b) && s.pc == Idle && IsProc(p)
    ensures MayRun(t, p)
  {
  }

  lemma ReadsForChange(s: State, p: int, b: int) returns (i: int, steps: seq<Step>, t: State)
    requires Inv(s) && Quiet(s) && s.pc == Idle && IsProc(p) && |s.ops| == NPROC && s.ops[p].InOp?
    requires s.ops[p].appended < MAXOPBLOCKS && Home(b, s.start) && b < |s.disk| && b !in s.lh && |s.lh| < NBUF
    ensures Leads(s, steps, t) && NoCrash(steps) && Inv(t) && t == s.(bufs := t.bufs)
    ensures MayLog(t, p, i) && t.bufs[i].blockno == b && UsesOne(t, p, i)
  {
    IdleIsUnsettled(s);
    SpareBuffer(s);
    hide Inv, Own, Enabled, Apply, SameStore, Unsettled;
    i, steps, t := Bread(s, p, b);
    OwnIsNoCrash(steps, p);
  }

  lemma ReleasesOne(s: State, s': State, p: int, i: int) returns (steps: seq<Step>, t: State)
    requires Inv(s') && UsesOne(s, p, i) && SameUsers(s, s') && Holds(s', p, i) && !s'.bufs[i].dirty && MayRun(s', p)
    ensures Leads(s', steps, t) && NoCrash(steps) && Inv(t) && Quiet(t) && t == s'.(bufs := t.bufs)
  {
    hide Inv, Own, Enabled, Apply, SameStore;
    steps, t := Brelse(s', p, i);
    OwnIsNoCrash(steps, p);
  }

  lemma IdleIsUnsettled(s: State)
    requires Inv(s) && s.pc == Idle
    ensures Unsettled(s) == s.lh && !Recovering(s)
  {
  }

  /** p may change and log the block in buffer i, which is not in the log yet. */
  ghost predicate MayLog(s: State, p: int, i: int) {
    && IsProc(p) && |s.ops| == NPROC && s.ops[p].InOp? && Holds(s, p, i) && s.bufs[i].valid
    && s.ops[p].appended < MAXOPBLOCKS && Home(s.bufs[i].blockno, s.start) && s.bufs[i].blockno !in s.lh
  }

  /** The change and log_write. */
  lemma Changes(s: State, p: int, i: int) returns (steps: seq<Step>, t: State)
    requires Inv(s) && MayLog(s, p, i)
    ensures Leads(s, steps, t) && Inv(t) && NoCrash(steps)
    ensures LoggedBy(s, t, p, s.bufs[i].blockno) && SameUsers(s, t) && Holds(t, p, i) && !t.bufs[i].dirty
  {
    var change, log := Modify(p, i, s.bufs[i].data), LogWrite(p, i);
    hide Inv, Enabled, Apply, Leads;
    var s1 := Changed(s, p, i);
    ChangedMayLog(s, s1, p, i);
    t := Logs(s1, p, i);
    LeadsTwo(s, change, log);
    hide MayLog, OnlyBuf;
    ChangedLogged(s, s1, t, p, i);
    steps := [change, log];
  }

  lemma ChangedMayLog(s: State, t: State, p: int, i: int)
    requires MayLog(s, p, i) && OnlyBuf(s, t, i) && t.bufs[i] == s.bufs[i].(dirty := true)
    ensures MayLog(t, p, i)
  {
  }

  lemma ChangedLogged(s: State, s1: State, t: State, p: int, i: int)
    requires OnlyBuf(s, s1, i) && s1.bufs[i] == s.bufs[i].(dirty := true)
    requires LoggedBy(s1, t, p, s1.bufs[i].blockno) && SameUsers(s1, t)
    ensures LoggedBy(s, t, p, s.bufs[i].blockno) && SameUsers(s, t)
  {
  }

  lemma Changed(s: State, p: int, i: int) returns (t: State)
    requires Inv(s) && MayLog(s, p, i)
    ensures Enabled(s, Modify(p, i, s.bufs[i].data)) && t == Apply(s, Modify(p, i, s.bufs[i].data)) && Inv(t)
    ensures OnlyBuf(s, t, i) && t.bufs[i] == s.bufs[i].(dirty := true)
  {
    hide Inv, Abs;
    LogProof.StepModify(s, p, i, s.bufs[i].data);
    t := Apply(s, Modify(p, i, s.bufs[i].data));
  }

  lemma Logs(s: State, p: int, i: int) returns (t: State)
    requires Inv(s) && MayLog(s, p, i)
    ensures Enabled(s, LogWrite(p, i)) && t == Apply(s, LogWrite(p, i)) && Inv(t)
    ensures LoggedBy(s, t, p, s.bufs[i].blockno) && SameUsers(s, t) && Holds(t, p, i) && !t.bufs[i].dirty
  {
    hide Inv, Abs;
    LogProof.StepLogWrite(s, p, i);
    t := Apply(s, LogWrite(p, i));
  }

  lemma OwnIsNoCrash(steps: seq<Step>, p: int)
    requires forall k :: 0 <= k < |steps| ==> Own(steps[k], p)
    ensures NoCrash(steps)
  {
  }

  lemma LeadsTwo(s: State, a: Step, b: Step)
    requires Enabled(s, a) && Enabled(Apply(s, a), b)
    ensures Leads(s, [a, b], Apply(Apply(s, a), b))
  {
    hide Enabled, Apply;
    assert [a, b][1..] == [b] && [b][1..] == [];
    assert Leads(Apply(s, a), [b], Apply(Apply(s, a), b));
  }
}
