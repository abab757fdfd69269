/**
  Every step of the log machine keeps its invariant and performs one event of the
  durable store it implements; so does every run.
 */
module LogProof {
  import opened Params
  import opened Blocks
  import opened LogMachine

  // ---------------------------------------------------------------- helpers

  lemma CurrentAt(s: State, i: int)
    requires Unique(s) && HasBuf(s, i) && s.bufs[i].dev == ROOTDEV && s.bufs[i].valid
    requires 0 <= s.bufs[i].blockno < |s.disk|
    ensures Current(s, s.bufs[i].blockno) == s.bufs[i].data
  {
    assert Caches(s.bufs[i], s.bufs[i].blockno);
  }

  lemma CurrentNone(s: State, b: int)
    requires 0 <= b < |s.disk|
    requires forall i :: HasBuf(s, i) && Caches(s.bufs[i], b) ==> !s.bufs[i].valid
    ensures Current(s, b) == s.disk[b]
  {
  }

  lemma {:induction false} OpenUpdate(ops: seq<Op>, p: int, o: Op)
    requires 0 <= p < |ops|
    ensures Open(ops[p := o]) == Open(ops) - (if ops[p].InOp? then 1 else 0) + (if o.InOp? then 1 else 0)
  {
    if p > 0 {
      assert ops[p := o][1..] == ops[1..][p - 1 := o];
      OpenUpdate(ops[1..], p - 1, o);
    }
  }

  function Budget(o: Op): int { if o.InOp? then MAXOPBLOCKS - o.appended else 0 }

  lemma {:induction false} UnusedUpdate(ops: seq<Op>, p: int, o: Op)
    requires 0 <= p < |ops|
    ensures Unused(ops[p := o]) == Unused(ops) - Budget(ops[p]) + Budget(o)
  {
    if p > 0 {
      assert ops[p := o][1..] == ops[1..][p - 1 := o];
      UnusedUpdate(ops[1..], p - 1, o);
    }
  }

  ghost predicate WithinBudget(ops: seq<Op>) {
    forall p :: 0 <= p < |ops| && ops[p].InOp? ==> ops[p].appended <= MAXOPBLOCKS
  }

  /** An open operation's own budget is part of the total, which no operation makes negative. */
  lemma {:induction false} UnusedAtLeast(ops: seq<Op>, p: int)
    requires 0 <= p < |ops| && WithinBudget(ops)
    ensures Budget(ops[p]) <= Unused(ops)
  {
    assert WithinBudget(ops[1..]) by { assert forall q :: 0 <= q < |ops| - 1 ==> ops[1..][q] == ops[q + 1]; }
    if p > 0 { UnusedAtLeast(ops[1..], p - 1); } else { UnusedBounds(ops[1..]); }
  }

  lemma {:induction false} UnusedBounds(ops: seq<Op>)
    requires WithinBudget(ops)
    ensures 0 <= Unused(ops) <= Open(ops) * MAXOPBLOCKS
  {
    if ops != [] {
      assert WithinBudget(ops[1..]) by { assert forall q :: 0 <= q < |ops| - 1 ==> ops[1..][q] == ops[q + 1]; }
      UnusedBounds(ops[1..]);
    }
  }

  lemma {:induction false} OpenAtLeast(ops: seq<Op>, p: int)
    requires 0 <= p < |ops| && ops[p].InOp?
    ensures Open(ops) >= 1
  {
    if p > 0 { OpenAtLeast(ops[1..], p - 1); }
  }

  lemma {:induction false} AllClosed(n: nat)
    ensures Open(seq(n, i => NoOp)) == 0 && Unused(seq(n, i => NoOp)) == 0
  {
    if n > 0 {
      assert seq(n, i => NoOp)[1..] == seq(n - 1, i => NoOp);
      AllClosed(n - 1);
    }
  }

  /** No open operation means no dirty buffer: commit and recovery see only logged contents. */
  lemma QuietIsClean(s: State)
    requires Inv(s) && s.outstanding == 0
    ensures Clean(s) && Active(s) == map[]
    ensures forall p :: 0 <= p < |s.ops| ==> s.ops[p].NoOp?
  {
    forall i | HasBuf(s, i) ensures !s.bufs[i].dirty {
      if s.bufs[i].dirty { OpenAtLeast(s.ops, s.bufs[i].holder); }
    }
    forall p | 0 <= p < |s.ops| ensures s.ops[p].NoOp? {
      if s.ops[p].InOp? { OpenAtLeast(s.ops, p); }
    }
    assert Active(s) == map[];
  }

  /** Two caches with the same valid contents for b, over equal disks, read the same. */
  lemma SameCurrent(s: State, s': State, b: int)
    requires Unique(s) && Unique(s') && |s'.bufs| == |s.bufs| && 0 <= b < |s.disk| && s'.disk == s.disk
    requires forall i :: HasBuf(s, i) ==>
      (Caches(s.bufs[i], b) && s.bufs[i].valid <==> Caches(s'.bufs[i], b) && s'.bufs[i].valid)
    requires forall i :: HasBuf(s, i) && Caches(s.bufs[i], b) && s.bufs[i].valid ==> s'.bufs[i].data == s.bufs[i].data
    ensures Current(s', b) == Current(s, b)
  {
    if i :| HasBuf(s, i) && Caches(s.bufs[i], b) && s.bufs[i].valid {
      CurrentAt(s, i);
      CurrentAt(s', i);
    } else {
      CurrentNone(s, b);
      CurrentNone(s', b);
    }
  }

  ghost predicate Good(s: State, step: Step, s': State)
    requires Inv(s) && Enabled(s, step)
  {
    Inv(s') && StoreNext(Abs(s), Abs(s'), EventOf(s, step))
  }

  // ---------------------------------------------------------------- cache steps

  /** s' changes buffer i only; an unsettled block stays cached, and keeps its data once commit runs. */
  ghost predicate OneBuf(s: State, s': State, i: int) {
    && HasBuf(s, i) && |s'.bufs| == |s.bufs| && s' == s.(bufs := s.bufs[i := s'.bufs[i]])
    && Unique(s')
    && var x, y := s.bufs[i], s'.bufs[i];
    && (x.dev == ROOTDEV && x.valid && x.blockno in Unsettled(s) ==> Caches(y, x.blockno) && y.valid)
    && (y.dev == ROOTDEV && y.valid && y.blockno in Unsettled(s) ==>
          Caches(x, y.blockno) && x.valid && (s.pc != Idle ==> y.data == x.data))
  }

  lemma OthersStayOk(s: State, s': State, i: int)
    requires Inv(s) && HasBuf(s, i) && |s'.bufs| == |s.bufs| && s' == s.(bufs := s.bufs[i := s'.bufs[i]])
    ensures forall j :: HasBuf(s', j) && j != i ==> BufOk(s', j)
  {
    forall j | HasBuf(s', j) && j != i ensures BufOk(s', j) { assert BufOk(s, j); }
  }

  lemma OneBufPins(s: State, s': State, i: int)
    requires PinsOk(s) && OneBuf(s, s', i)
    ensures PinsOk(s')
  {
    assert Unsettled(s') == Unsettled(s);
    forall k | 0 <= k < |Unsettled(s)| ensures Cached(s', Unsettled(s)[k]) {
      assert Cached(s, Unsettled(s)[k]);
      var j :| HasBuf(s, j) && Caches(s.bufs[j], Unsettled(s)[k]) && s.bufs[j].valid;
      assert HasBuf(s', j) && Caches(s'.bufs[j], Unsettled(s)[k]) && s'.bufs[j].valid;
    }
  }

  lemma OneBufHolds(s: State, s': State, i: int, k: int)
    requires Shape(s) && Shape(s') && OneBuf(s, s', i)
    requires 0 <= k < |s.lh| && s.pc != Idle && s.lh[k] in Unsettled(s) && LogHoldsCached(s, k)
    ensures LogHoldsCached(s', k)
  {
    forall j | HasBuf(s', j) && Caches(s'.bufs[j], s'.lh[k]) && s'.bufs[j].valid
      ensures s'.bufs[j].data == s'.disk[s'.start + 1 + k]
    {
      assert HasBuf(s, j) && Caches(s.bufs[j], s.lh[k]);
    }
  }

  /** What is said of other things than buffers. */
  lemma OneBufFrame(s: State, s': State, i: int)
    requires Shape(s) && Protocol(s) && SyncOk(s) && OneBuf(s, s', i)
    ensures Shape(s') && Protocol(s') && SyncOk(s') && Unsettled(s') == Unsettled(s)
    ensures s'.disk == s.disk && s'.start == s.start && s'.pc == s.pc && s'.lh == s.lh
  {
    hide Unique;
  }

  lemma OneBufDisk(s: State, s': State, i: int)
    requires Shape(s) && Shape(s') && OnDisk(s) && OneBuf(s, s', i)
    ensures OnDisk(s')
  {
    hide Unique, LogHoldsCached;
    forall k | 0 <= k < |s.lh| && s.pc != Idle && s.lh[k] in Unsettled(s) && LogHoldsCached(s, k)
      ensures LogHoldsCached(s', k)
    {
      OneBufHolds(s, s', i, k);
    }
    if s.pc.Install? {
      forall k | s.pc.tail <= k < |s.lh| ensures s.lh[k] in Unsettled(s) {
        assert s.lh[k] == Unsettled(s)[k - s.pc.tail];
      }
    }
  }

  lemma OneBufKeeps(s: State, s': State, i: int)
    requires Inv(s) && OneBuf(s, s', i)
    ensures Shape(s') && PinsOk(s') && Protocol(s') && OnDisk(s') && SyncOk(s')
    ensures forall j :: HasBuf(s', j) && j != i ==> BufOk(s', j)
  {
    OneBufFrame(s, s', i);
    OneBufDisk(s, s', i);
    OneBufPins(s, s', i);
    OthersStayOk(s, s', i);
  }

  /** A step that leaves buffer i consistent, and what readers find as it was. */
  lemma OneBufGood(s: State, s': State, i: int)
    requires Inv(s) && OneBuf(s, s', i) && BufOk(s', i) && DirtyOk(s') && CurrentMap(s') == CurrentMap(s)
    ensures Inv(s') && Abs(s') == Abs(s)
  {
    hide Shape, PinsOk, Protocol, OnDisk, SyncOk, BufOk, DirtyOk, Recovered, Current;
    OneBufKeeps(s, s', i);
    OneBufFrameOnly(s, s', i);
    assert Active(s') == Active(s);
  }

  lemma OneBufFrameOnly(s: State, s': State, i: int)
    requires OneBuf(s, s', i)
    ensures s' == s.(bufs := s'.bufs) && Unique(s')
  {
  }

  /** Only the reference count, the users or the lock holder of buffer i change. */
  ghost predicate Relabelled(s: State, s': State, i: int) {
    && HasBuf(s, i) && |s'.bufs| == |s.bufs| && s' == s.(bufs := s.bufs[i := s'.bufs[i]])
    && s'.bufs[i] == s.bufs[i].(refcnt := s'.bufs[i].refcnt, holder := s'.bufs[i].holder, users := s'.bufs[i].users)
  }

  lemma RelabelledIsOneBuf(s: State, s': State, i: int)
    requires Unique(s) && Relabelled(s, s', i)
    ensures OneBuf(s, s', i) && CurrentMap(s') == CurrentMap(s)
  {
    assert Unique(s') by { forall j | HasBuf(s', j) ensures HasBuf(s, j) {} }
    forall c | 0 <= c < |s.disk| ensures Current(s', c) == Current(s, c) { SameCurrent(s, s', c); }
  }

  /** A relabelling is safe as soon as it leaves the relabelled buffer consistent. */
  lemma RelabelledKeeps(s: State, s': State, i: int)
    requires Inv(s) && Relabelled(s, s', i) && BufOk(s', i)
    requires s'.bufs[i].dirty ==> s'.bufs[i].holder == s.bufs[i].holder
    ensures Inv(s') && Abs(s') == Abs(s)
  {
    RelabelledIsOneBuf(s, s', i);
    OneBufKeeps(s, s', i);
  }

  lemma StepBgetHit(s: State, p: int, i: int, b: int)
    requires Inv(s) && Enabled(s, BgetHit(p, i, b))
    ensures Good(s, BgetHit(p, i, b), GetHit(s, p, i))
  {
    assert BufOk(s, i);
    RelabelledKeeps(s, GetHit(s, p, i), i);
  }

  lemma StepLockBuf(s: State, p: int, i: int)
    requires Inv(s) && Enabled(s, LockBuf(p, i))
    ensures Good(s, LockBuf(p, i), Apply(s, LockBuf(p, i)))
  {
    assert BufOk(s, i);
    RelabelledKeeps(s, Apply(s, LockBuf(p, i)), i);
  }

  lemma StepUnlockBuf(s: State, p: int, i: int)
    requires Inv(s) && Enabled(s, UnlockBuf(p, i))
    ensures Good(s, UnlockBuf(p, i), Apply(s, UnlockBuf(p, i)))
  {
    assert BufOk(s, i);
    RelabelledKeeps(s, Apply(s, UnlockBuf(p, i)), i);
  }

  lemma StepDropBuf(s: State, p: int, i: int)
    requires Inv(s) && Enabled(s, DropBuf(p, i))
    ensures Good(s, DropBuf(p, i), Apply(s, DropBuf(p, i)))
  {
    assert BufOk(s, i);
    RelabelledKeeps(s, Apply(s, DropBuf(p, i)), i);
  }

  lemma UncachedIsSettled(s: State, b: int)
    requires PinsOk(s) && !Cached(s, b)
    ensures b !in Unsettled(s)
  {
    forall k | 0 <= k < |Unsettled(s)| ensures Unsettled(s)[k] != b { assert Cached(s, Unsettled(s)[k]); }
  }

  lemma StepBgetMiss(s: State, p: int, i: int, b: int)
    requires Inv(s) && Enabled(s, BgetMiss(p, i, b))
    ensures Good(s, BgetMiss(p, i, b), GetMiss(s, p, i, b))
  {
    hide Inv, Abs, OneBuf, BufOk, DirtyOk, Current;
    var s' := GetMiss(s, p, i, b);
    MissBuffer(s, p, i, b);
    OneBufGood(s, s', i);
  }

  /** The recycled buffer was clean and unreferenced, and no copy of the new block is lost. */
  lemma MissBuffer(s: State, p: int, i: int, b: int)
    requires Inv(s) && Enabled(s, BgetMiss(p, i, b))
    ensures var s' := GetMiss(s, p, i, b);
      OneBuf(s, s', i) && BufOk(s', i) && DirtyOk(s') && CurrentMap(s') == CurrentMap(s)
  {
    hide OnDisk, SyncOk, Protocol, Current;
    var s' := GetMiss(s, p, i, b);
    assert BufOk(s, i);
    assert s.bufs[i].users == {} && !s.bufs[i].dirty;
    UncachedIsSettled(s, b);
    assert Unsettled(s') == Unsettled(s);
    assert OneBuf(s, s', i);
    EvictedKeepsReads(s, s', i);
  }

  lemma EvictedKeepsReads(s: State, s': State, i: int)
    requires Unique(s) && OneBuf(s, s', i)
    requires var x := s.bufs[i]; x.dev == ROOTDEV && x.valid ==>
      0 <= x.blockno < |s.disk| && x.data == s.disk[x.blockno]
    requires var y := s'.bufs[i]; y.dev == ROOTDEV && y.valid ==>
      0 <= y.blockno < |s.disk| && y.data == s.disk[y.blockno]
    ensures CurrentMap(s') == CurrentMap(s)
  {
    hide Current, Unique;
    forall c | 0 <= c < |s.disk| ensures Current(s', c) == Current(s, c) { EvictedReadsSame(s, s', i, c); }
  }

  /** Recycling a clean buffer, or filling one from disk, changes what no reader finds. */
  lemma EvictedReadsSame(s: State, s': State, i: int, c: int)
    requires Unique(s) && OneBuf(s, s', i) && 0 <= c < |s.disk|
    requires var x := s.bufs[i]; x.dev == ROOTDEV && x.valid ==>
      0 <= x.blockno < |s.disk| && x.data == s.disk[x.blockno]
    requires var y := s'.bufs[i]; y.dev == ROOTDEV && y.valid ==>
      0 <= y.blockno < |s.disk| && y.data == s.disk[y.blockno]
    ensures Current(s', c) == Current(s, c)
  {
    if Caches(s.bufs[i], c) && s.bufs[i].valid {
      CurrentAt(s, i);
      if Caches(s'.bufs[i], c) && s'.bufs[i].valid { CurrentAt(s', i); } else { CurrentNone(s', c); }
    } else if Caches(s'.bufs[i], c) && s'.bufs[i].valid {
      CurrentAt(s', i);
      forall j | HasBuf(s, j) && Caches(s.bufs[j], c) ensures j == i { assert HasBuf(s', i) && HasBuf(s', j); }
      CurrentNone(s, c);
    } else {
      SameCurrent(s, s', c);
    }
  }

  lemma StepReadBuf(s: State, p: int, i: int)
    requires Inv(s) && Enabled(s, ReadBuf(p, i))
    ensures Good(s, ReadBuf(p, i), Apply(s, ReadBuf(p, i)))
  {
    hide Inv, Abs, OneBuf, BufOk, DirtyOk, Current;
    ReadBuffer(s, p, i);
    OneBufGood(s, Apply(s, ReadBuf(p, i)), i);
  }

  lemma ReadBuffer(s: State, p: int, i: int)
    requires Inv(s) && Enabled(s, ReadBuf(p, i))
    ensures var s' := Apply(s, ReadBuf(p, i));
      OneBuf(s, s', i) && BufOk(s', i) && DirtyOk(s') && CurrentMap(s') == CurrentMap(s)
  {
    hide OnDisk, SyncOk, Protocol, Current;
    var s' := Apply(s, ReadBuf(p, i));
    assert BufOk(s, i) && s.bufs[i].dev == ROOTDEV;
    UncachedIsSettled(s, s.bufs[i].blockno);
    assert Unsettled(s') == Unsettled(s);
    assert OneBuf(s, s', i);
    EvictedKeepsReads(s, s', i);
  }

  lemma StepModify(s: State, p: int, i: int, data: Block)
    requires Inv(s) && Enabled(s, Modify(p, i, data))
    ensures Good(s, Modify(p, i, data), Apply(s, Modify(p, i, data)))
  {
    hide Recovered, Current, BufOk, DirtyOk, OnDisk, Protocol, SyncOk, PinsOk;
    var s' := Apply(s, Modify(p, i, data));
    ModifyBuffer(s, p, i, data);
    OneBufKeeps(s, s', i);
    ModifyReads(s, s', i, data);
    assert Active(s') == Active(s);
  }

  /** A holder in an open operation changes its buffer: commit is not running. */
  lemma ModifyBuffer(s: State, p: int, i: int, data: Block)
    requires Inv(s) && Enabled(s, Modify(p, i, data))
    ensures var s' := Apply(s, Modify(p, i, data));
      && OneBuf(s, s', i) && BufOk(s', i) && DirtyOk(s')
      && s.bufs[i].dev == ROOTDEV && 0 <= s.bufs[i].blockno < |s.disk| && !Recovering(s) && p in Active(s)
  {
    hide PinsOk, OnDisk, SyncOk;
    var s' := Apply(s, Modify(p, i, data));
    assert BufOk(s, i) && s.bufs[i].dev == ROOTDEV;
    OpenAtLeast(s.ops, p);
    assert Unsettled(s') == Unsettled(s);
    assert Unique(s') by { hide DirtyOk, Protocol, BufOk; }
  }

  lemma ModifyReads(s: State, s': State, i: int, data: Block)
    requires Unique(s) && OneBuf(s, s', i) && s.bufs[i].dev == ROOTDEV
    requires s.bufs[i].valid && 0 <= s.bufs[i].blockno < |s.disk|
    requires Home(s.bufs[i].blockno, s.start) && s'.bufs[i] == s.bufs[i].(data := data, dirty := true)
    ensures CurrentMap(s') == CurrentMap(s)[s.bufs[i].blockno := data]
  {
    hide Current;
    CurrentAt(s', i);
    forall c | 0 <= c < |s.disk| && c != s.bufs[i].blockno ensures Current(s', c) == Current(s, c) {
      SameCurrent(s, s', c);
    }
  }

  // ---------------------------------------------------------------- operations

  lemma StepBeginOp(s: State, p: int)
    requires Inv(s) && Enabled(s, BeginOp(p))
    ensures Good(s, BeginOp(p), Apply(s, BeginOp(p)))
  {
    hide Recovered, Current, BufOk, Unique, PinsOk;
    var s' := Apply(s, BeginOp(p));
    OpenUpdate(s.ops, p, InOp(0, s.ncommit));
    UnusedUpdate(s.ops, p, InOp(0, s.ncommit));
    UnusedBounds(s.ops);
    SameCacheKeeps(s, s');
    assert Active(s') == Active(s)[p := s.ncommit];
  }

  /** Steps that change neither the disk, the cache nor the log keep all that is said of them. */
  lemma SameCacheKeeps(s: State, s': State)
    requires Inv(s) && s'.disk == s.disk && s'.start == s.start && s'.bufs == s.bufs && s'.lh == s.lh
    requires Recovering(s') == Recovering(s) && Unsettled(s') == Unsettled(s)
    ensures Unique(s') && PinsOk(s')
    ensures forall i :: HasBuf(s', i) ==> BufOk(s', i)
    ensures forall k :: Shape(s') && 0 <= k < |s.lh| && LogHoldsCached(s, k) ==> LogHoldsCached(s', k)
    ensures CurrentMap(s') == CurrentMap(s)
  {
    forall i | HasBuf(s', i) ensures BufOk(s', i) { assert BufOk(s, i); }
    forall k | 0 <= k < |Unsettled(s)| ensures Cached(s', Unsettled(s)[k]) {
      assert Cached(s, Unsettled(s)[k]);
      var j :| HasBuf(s, j) && Caches(s.bufs[j], Unsettled(s)[k]) && s.bufs[j].valid;
      assert HasBuf(s', j);
    }
    forall k | Shape(s') && 0 <= k < |s.lh| && LogHoldsCached(s, k) ensures LogHoldsCached(s', k) {
      forall i | HasBuf(s', i) ensures HasBuf(s, i) {}
    }
    forall c | 0 <= c < |s.disk| ensures Current(s', c) == Current(s, c) {
      forall i | HasBuf(s', i) ensures HasBuf(s, i) {}
      SameCurrent(s, s', c);
    }
  }

  lemma StepEndOp(s: State, p: int)
    requires Inv(s) && Enabled(s, EndOp(p))
    ensures Good(s, EndOp(p), Ended(s, p))
  {
    hide Recovered, Protocol, SyncOk, BufOk, Unique, PinsOk;
    var s' := Ended(s, p);
    OpenIsCounted(s, p);
    EndKeepsBudget(s, p);
    SameCacheKeeps(s, s');
    assert Active(s') == Active(s) - {p};
  }

  lemma OpenIsCounted(s: State, p: int)
    requires Protocol(s) && 0 <= p < |s.ops| && s.ops[p].InOp?
    ensures s.outstanding >= 1 && s.pc == Idle
  {
    OpenAtLeast(s.ops, p);
  }

  lemma EndKeepsBudget(s: State, p: int)
    requires Inv(s) && IsProc(p) && s.ops[p].InOp?
    ensures Protocol(Ended(s, p)) && SyncOk(Ended(s, p))
  {
    OpenAtLeast(s.ops, p);
    OpenUpdate(s.ops, p, NoOp);
    UnusedUpdate(s.ops, p, NoOp);
  }

  /** log_write never finds the log full, for an operation that has appended fewer than MAXOPBLOCKS blocks. */
  lemma NeverTooBig(s: State, p: int)
    requires Inv(s) && !Recovering(s) && IsProc(p) && s.ops[p].InOp? && s.ops[p].appended < MAXOPBLOCKS
    ensures |s.lh| < LOGBLOCKS && s.outstanding >= 1
  {
    UnusedAtLeast(s.ops, p);
    OpenAtLeast(s.ops, p);
  }

  lemma StepLogWrite(s: State, p: int, i: int)
    requires Inv(s) && Enabled(s, LogWrite(p, i))
    ensures Good(s, LogWrite(p, i), Logged(s, p, i))
  {
    var s' := Logged(s, p, i);
    var b := s.bufs[i].blockno;
    assert BufOk(s, i) && s.bufs[i].dev == ROOTDEV;
    OpenAtLeast(s.ops, p);
    NeverTooBig(s, p);
    if b in s.lh {
      LogWriteAbsorbs(s, p, i);
    } else {
      LogWriteAppends(s, p, i);
    }
  }

  lemma LogWriteAbsorbs(s: State, p: int, i: int)
    requires Inv(s) && Enabled(s, LogWrite(p, i)) && s.bufs[i].blockno in s.lh && s.pc == Idle
    ensures Good(s, LogWrite(p, i), Logged(s, p, i))
  {
    hide Inv, Abs, OneBuf, BufOk, DirtyOk, Current;
    AbsorbBuffer(s, p, i);
    OneBufGood(s, Logged(s, p, i), i);
  }

  lemma AbsorbBuffer(s: State, p: int, i: int)
    requires Inv(s) && Enabled(s, LogWrite(p, i)) && s.bufs[i].blockno in s.lh && s.pc == Idle
    ensures var s' := Logged(s, p, i);
      OneBuf(s, s', i) && BufOk(s', i) && DirtyOk(s') && CurrentMap(s') == CurrentMap(s)
  {
    hide OnDisk, SyncOk, Protocol, PinsOk, Current;
    var s' := Logged(s, p, i);
    assert BufOk(s, i);
    assert Unsettled(s') == s.lh == Unsettled(s);
    assert OneBuf(s, s', i);
    forall c | 0 <= c < |s.disk| ensures Current(s', c) == Current(s, c) { SameCurrent(s, s', c); }
  }

  /** The appended block is pinned by the reference that log_write adds, so it stays cached. */
  lemma AppendKeepsCache(s: State, p: int, i: int)
    requires Inv(s) && Enabled(s, LogWrite(p, i)) && s.bufs[i].blockno !in s.lh && s.pc == Idle
    requires s.bufs[i].dev == ROOTDEV
    ensures var s' := Logged(s, p, i);
      Unique(s') && PinsOk(s') && DirtyOk(s') && forall j :: HasBuf(s', j) ==> BufOk(s', j)
  {
    var s' := Logged(s, p, i);
    var b := s.bufs[i].blockno;
    assert Unsettled(s') == s.lh + [b] && Unsettled(s) == s.lh;
    forall j | HasBuf(s', j) ensures BufOk(s', j) { assert BufOk(s, j) && BufOk(s, i); }
    forall k | 0 <= k < |s'.lh| ensures Cached(s', s'.lh[k]) {
      if k < |s.lh| {
        assert Cached(s, Unsettled(s)[k]);
        var j :| HasBuf(s, j) && Caches(s.bufs[j], s.lh[k]) && s.bufs[j].valid;
        assert HasBuf(s', j) && Caches(s'.bufs[j], s.lh[k]) && s'.bufs[j].valid;
      } else {
        assert HasBuf(s', i) && Caches(s'.bufs[i], b) && s'.bufs[i].valid;
      }
    }
  }

  lemma LogWriteAppends(s: State, p: int, i: int)
    requires Inv(s) && Enabled(s, LogWrite(p, i)) && s.bufs[i].blockno !in s.lh && s.pc == Idle
    requires |s.lh| < LOGBLOCKS && s.outstanding >= 1 && s.bufs[i].dev == ROOTDEV && BufOk(s, i)
    ensures Good(s, LogWrite(p, i), Logged(s, p, i))
  {
    var s' := Logged(s, p, i);
    AppendKeepsBudget(s, p, i);
    AppendKeepsCache(s, p, i);
    AppendReadsSame(s, p, i);
    AppendKeepsRest(s, p, i);
  }

  lemma AppendKeepsRest(s: State, p: int, i: int)
    requires Inv(s) && Enabled(s, LogWrite(p, i)) && s.bufs[i].blockno !in s.lh && s.pc == Idle
    requires Shape(Logged(s, p, i))
    ensures OnDisk(Logged(s, p, i)) && SyncOk(Logged(s, p, i)) && Active(Logged(s, p, i)) == Active(s)
  {
    hide BufOk, Unique, PinsOk, DirtyOk, Protocol, LogHoldsCached, GoodList, HeadList;
    var s' := Logged(s, p, i);
    assert s'.disk == s.disk && s'.start == s.start && s'.pc == s.pc && s'.ended == s.ended && s'.syncs == s.syncs;
    assert Active(s') == Active(s);
  }

  lemma AppendKeepsBudget(s: State, p: int, i: int)
    requires Inv(s) && Enabled(s, LogWrite(p, i)) && s.bufs[i].blockno !in s.lh && s.pc == Idle
    requires |s.lh| < LOGBLOCKS && s.outstanding >= 1 && s.bufs[i].dev == ROOTDEV && BufOk(s, i)
    ensures Shape(Logged(s, p, i)) && Protocol(Logged(s, p, i))
  {
    hide OnDisk, SyncOk, PinsOk, DirtyOk, Unique;
    var s' := Logged(s, p, i);
    OpenUpdate(s.ops, p, s'.ops[p]);
    UnusedUpdate(s.ops, p, s'.ops[p]);
  }

  lemma AppendReadsSame(s: State, p: int, i: int)
    requires Inv(s) && Enabled(s, LogWrite(p, i)) && Unique(Logged(s, p, i))
    ensures CurrentMap(Logged(s, p, i)) == CurrentMap(s)
  {
    hide DirtyOk, Protocol, OnDisk, SyncOk, PinsOk, BufOk, Current;
    var s' := Logged(s, p, i);
    forall c | 0 <= c < |s.disk| ensures Current(s', c) == Current(s, c) { SameCurrent(s, s', c); }
  }

  // ---------------------------------------------------------------- commit

  lemma StepCommitEmpty(s: State)
    requires Inv(s) && Enabled(s, CommitEmpty)
    ensures Good(s, CommitEmpty, Apply(s, CommitEmpty))
  {
    var s' := Apply(s, CommitEmpty);
    QuietIsClean(s);
    SameCacheKeeps(s, s');
    CleanCurrent(s);
    assert Recovered(s.disk, s.start) == CurrentMap(s);
  }

  /** With nothing dirty or unsettled, readers find what the disk holds. */
  lemma CleanCurrent(s: State)
    requires Inv(s) && Clean(s)
    ensures forall c :: 0 <= c < |s.disk| && c !in Unsettled(s) ==> Current(s, c) == s.disk[c]
  {
    forall c | 0 <= c < |s.disk| && c !in Unsettled(s) ensures Current(s, c) == s.disk[c] {
      if i :| HasBuf(s, i) && Caches(s.bufs[i], c) && s.bufs[i].valid {
        assert BufOk(s, i);
        CurrentAt(s, i);
      }
    }
  }

  lemma StepCommitDone(s: State)
    requires Inv(s) && Enabled(s, CommitDone)
    ensures Good(s, CommitDone, Apply(s, CommitDone))
  {
    QuietIsClean(s);
    SameCacheKeeps(s, Apply(s, CommitDone));
  }

  /** The bwrite of a log-area block, by the process that holds its buffer. */
  ghost predicate LogAreaWrite(s: State, s': State, i: int, data: Block) {
    && HasBuf(s, i) && s.bufs[i].dev == ROOTDEV && s.bufs[i].valid
    && s.start <= s.bufs[i].blockno <= s.start + LOGBLOCKS < |s.disk|
    && s' == Written(s, i, data).(lh := s'.lh, pc := s'.pc)
  }

  /** Writing a log-area block keeps the cache coherent and changes no home block that readers see. */
  lemma LogAreaReadsSame(s: State, s': State, i: int, data: Block, c: int)
    requires Unique(s) && LogAreaWrite(s, s', i, data) && 0 <= c < |s.disk| && Home(c, s.start)
    ensures Unique(s') && Current(s', c) == Current(s, c)
  {
    assert Unique(s') by {
      forall j | HasBuf(s', j)
        ensures HasBuf(s, j) && s'.bufs[j].dev == s.bufs[j].dev && s'.bufs[j].blockno == s.bufs[j].blockno
      {}
    }
    SameCurrent(s, s'.(disk := s.disk), c);
    SameDiskBlock(s'.(disk := s.disk), s', c);
  }

  lemma LogAreaCached(s: State, s': State, i: int, data: Block, k: int)
    requires Inv(s) && LogAreaWrite(s, s', i, data) && 0 <= k < |Unsettled(s)|
    ensures Unsettled(s)[k] != s.bufs[i].blockno && Cached(s', Unsettled(s)[k])
  {
    hide DirtyOk, Protocol, OnDisk, SyncOk;
    UnsettledIsLogged(s, k);
    assert Cached(s, Unsettled(s)[k]);
    var j :| HasBuf(s, j) && Caches(s.bufs[j], Unsettled(s)[k]) && s.bufs[j].valid;
    assert HasBuf(s', j) && Caches(s'.bufs[j], Unsettled(s)[k]) && s'.bufs[j].valid;
  }

  lemma LogAreaWriteKeeps(s: State, s': State, i: int, data: Block)
    requires Inv(s) && LogAreaWrite(s, s', i, data) && GoodList(s'.lh, s.disk, s.start)
    requires Clean(s) && Unsettled(s') == Unsettled(s)
    ensures Unique(s') && PinsOk(s')
    ensures forall j :: HasBuf(s', j) ==> BufOk(s', j)
    ensures CurrentMap(s') == CurrentMap(s)
  {
    hide DirtyOk, Protocol, OnDisk, SyncOk, Current;
    var b := s.bufs[i].blockno;
    assert BufOk(s, i);
    forall k | 0 <= k < |Unsettled(s)| ensures Unsettled(s)[k] != b && Cached(s', Unsettled(s)[k]) {
      LogAreaCached(s, s', i, data, k);
    }
    forall j | HasBuf(s', j) ensures BufOk(s', j) {
      assert BufOk(s, j);
      assert HasBuf(s, j) && HasBuf(s, i);
    }
    forall c | 0 <= c < |s.disk| && Home(c, s.start) ensures Current(s', c) == Current(s, c) {
      LogAreaReadsSame(s, s', i, data, c);
    }
  }

  lemma UnsettledIsLogged(s: State, k: int)
    requires 0 <= k < |Unsettled(s)|
    ensures Unsettled(s)[k] in s.lh
  {
  }

  lemma SameDiskBlock(s: State, s': State, c: int)
    requires Unique(s) && s'.bufs == s.bufs && 0 <= c < |s.disk| == |s'.disk| && s'.disk[c] == s.disk[c]
    ensures Current(s', c) == Current(s, c)
  {
    if i :| HasBuf(s, i) && Caches(s.bufs[i], c) && s.bufs[i].valid {
      assert Unique(s') by { forall i | HasBuf(s', i) ensures HasBuf(s, i) {} }
      CurrentAt(s, i);
      CurrentAt(s', i);
    } else {
      forall i | HasBuf(s', i) ensures HasBuf(s, i) {}
      CurrentNone(s, c);
      CurrentNone(s', c);
    }
  }

  lemma StepCommitLog(s: State, i: int, j: int)
    requires Inv(s) && Enabled(s, CommitLog(i, j))
    ensures Good(s, CommitLog(i, j), Apply(s, CommitLog(i, j)))
  {
    hide Recovered, Current, Shape, BufOk, Unique, PinsOk, DirtyOk, Protocol, OnDisk, SyncOk, GoodList;
    var s' := Apply(s, CommitLog(i, j));
    CommitLogCopies(s, i, j);
    LogAreaWriteKeeps(s, s', i, s.bufs[j].data);
    CommitLogKeepsDisk(s, s', i, j);
    assert Active(s') == Active(s);
  }

  /** write_log copies one logged block: buffer j's data go to log block tail, through buffer i. */
  ghost predicate CopiesToLog(s: State, s': State, i: int, j: int) {
    && s.pc.WriteLog? && s.pc.tail < |s.lh| && i != j && HasBuf(s, i) && HasBuf(s, j)
    && Caches(s.bufs[i], s.start + 1 + s.pc.tail) && 0 <= s.bufs[i].blockno < |s.disk|
    && Caches(s.bufs[j], s.lh[s.pc.tail])
    && s' == Written(s, i, s.bufs[j].data).(pc := WriteLog(s.pc.tail + 1))
  }

  lemma CommitLogCopies(s: State, i: int, j: int)
    requires Inv(s) && Enabled(s, CommitLog(i, j))
    ensures var s' := Apply(s, CommitLog(i, j));
      && CopiesToLog(s, s', i, j) && LogAreaWrite(s, s', i, s.bufs[j].data)
      && Shape(s') && DirtyOk(s') && Protocol(s') && SyncOk(s') && GoodList(s'.lh, s.disk, s.start)
      && Clean(s) && Unsettled(s') == Unsettled(s) && GoodHead(s.disk, s.start)
  {
    hide BufOk, Unique, PinsOk, LogHoldsCached;
    QuietIsClean(s);
  }

  lemma CommitLogKeepsDisk(s: State, s': State, i: int, j: int)
    requires Shape(s) && Shape(s') && Unique(s) && OnDisk(s)
    requires CopiesToLog(s, s', i, j) && LogAreaWrite(s, s', i, s.bufs[j].data)
    ensures OnDisk(s') && Recovered(s'.disk, s'.start) == Recovered(s.disk, s.start)
  {
    hide Recovered, LogHoldsCached, Unique, GoodList;
    var t := s.pc.tail;
    forall k | 0 <= k < t ensures LogHoldsCached(s', k) { LogAreaWriteHolds(s, s', i, s.bufs[j].data, k); }
    LogCopyHolds(s, s', i, j);
    LogCopyKeepsRecovered(s.disk, s.start, s.start + 1 + t, s.bufs[j].data);
  }

  lemma LogCopyHolds(s: State, s': State, i: int, j: int)
    requires Shape(s) && Shape(s') && Unique(s) && CopiesToLog(s, s', i, j)
    ensures LogHoldsCached(s', s.pc.tail)
  {
    var t := s.pc.tail;
    assert Home(s.lh[t], s.start);
    forall m | HasBuf(s', m) && Caches(s'.bufs[m], s'.lh[t]) && s'.bufs[m].valid
      ensures s'.bufs[m].data == s'.disk[s'.start + 1 + t]
    {
      assert HasBuf(s, m) && HasBuf(s, j);
    }
  }

  /** While the header is empty, writes to log data blocks mean nothing. */
  lemma LogCopyKeepsRecovered(d: seq<Block>, start: nat, b: nat, data: Block)
    requires GoodHead(d, start) && HeadCount(d[start]) == 0 && start < b <= start + LOGBLOCKS
    ensures GoodHead(d[b := data], start) && Recovered(d[b := data], start) == Recovered(d, start)
  {
  }

  lemma LogAreaWriteHolds(s: State, s': State, i: int, data: Block, k: int)
    requires Shape(s) && Shape(s') && LogAreaWrite(s, s', i, data) && s'.lh == s.lh && 0 <= k < |s.lh|
    requires LogHoldsCached(s, k) && s.bufs[i].blockno != s.start + 1 + k
    ensures LogHoldsCached(s', k)
  {
    forall m | HasBuf(s', m) && Caches(s'.bufs[m], s'.lh[k]) && s'.bufs[m].valid
      ensures s'.bufs[m].data == s'.disk[s'.start + 1 + k]
    {
      assert HasBuf(s, m) && Home(s.lh[k], s.start);
    }
  }

  /** The first write_head: in one disk write the whole transaction becomes durable. */
  lemma StepCommitHead(s: State, i: int)
    requires Inv(s) && Enabled(s, CommitHead(i))
    ensures Good(s, CommitHead(i), Apply(s, CommitHead(i)))
  {
    hide Recovered, Current, BufOk, Unique, PinsOk, DirtyOk, Protocol, OnDisk;
    hide SyncOk, HeadImage, HeadList, GoodHead, GoodList;
    var s', h := Apply(s, CommitHead(i)), HeadImage(s.bufs[i].data, s.lh);
    HeadWriteFrame(s, i);
    LogAreaWriteKeeps(s, s', i, h);
    HeadMakesDurable(s, h);
    HeadWriteDisk(s, s', i);
    assert Active(s') == Active(s);
  }

  lemma HeadWriteFrame(s: State, i: int)
    requires Inv(s) && Enabled(s, CommitHead(i))
    ensures var s', h := Apply(s, CommitHead(i)), HeadImage(s.bufs[i].data, s.lh);
      && LogAreaWrite(s, s', i, h) && Shape(s') && DirtyOk(s') && Protocol(s')
      && SyncOk(s') && GoodList(s'.lh, s.disk, s.start)
      && Clean(s) && Active(s) == map[] && Unsettled(s') == Unsettled(s) && s.pc == WriteLog(|s.lh|)
      && HeadCount(h) == |s.lh| && HeadList(h) == s.lh && s'.disk == s.disk[s.start := h]
  {
    hide BufOk, Unique, PinsOk, OnDisk;
    QuietIsClean(s);
  }

  lemma HeadWriteDisk(s: State, s': State, i: int)
    requires Inv(s) && Enabled(s, CommitHead(i)) && s' == Apply(s, CommitHead(i)) && Shape(s')
    requires var h := HeadImage(s.bufs[i].data, s.lh);
      LogAreaWrite(s, s', i, h) && GoodHead(s'.disk, s'.start) && HeadList(s'.disk[s'.start]) == s.lh
    ensures OnDisk(s')
  {
    hide BufOk, Unique, PinsOk, DirtyOk, Protocol, SyncOk, LogHoldsCached, HeadImage, HeadList, GoodHead;
    forall k | 0 <= k < |s.lh| ensures LogHoldsCached(s', k) {
      LogAreaWriteHolds(s, s', i, HeadImage(s.bufs[i].data, s.lh), k);
    }
  }

  lemma HeadMakesDurable(s: State, h: Block)
    requires Inv(s) && Clean(s) && s.pc == WriteLog(|s.lh|) && HeadCount(h) == |s.lh| && HeadList(h) == s.lh
    ensures GoodHead(s.disk[s.start := h], s.start)
    ensures Recovered(s.disk[s.start := h], s.start) == CurrentMap(s)
  {
    CleanCurrent(s);
    forall c | 0 <= c < |s.disk| && Home(c, s.start)
      ensures Overlay(s.disk[s.start := h], s.start, s.lh, c) == Current(s, c)
    {
      if c in s.lh { DurableAt(s, s.disk[s.start := h], c); }
    }
  }

  lemma DurableAt(s: State, d': seq<Block>, c: int)
    requires Inv(s) && s.pc == WriteLog(|s.lh|) && c in s.lh
    requires |d'| == |s.disk| && forall b :: 0 <= b < |s.disk| && b != s.start ==> d'[b] == s.disk[b]
    ensures Overlay(d', s.start, s.lh, c) == Current(s, c)
  {
    var k :| 0 <= k < |s.lh| && s.lh[k] == c;
    OverlayAt(d', s.start, s.lh, k);
    LoggedReads(s, k);
  }

  /** Once write_log is done, a reader of a logged block finds what its log block holds. */
  lemma LoggedReads(s: State, k: int)
    requires Inv(s) && s.pc == WriteLog(|s.lh|) && 0 <= k < |s.lh|
    ensures Current(s, s.lh[k]) == s.disk[s.start + 1 + k]
  {
    assert LogHoldsCached(s, k);
    assert Cached(s, Unsettled(s)[k]);
    var m :| HasBuf(s, m) && Caches(s.bufs[m], s.lh[k]) && s.bufs[m].valid;
    CurrentAt(s, m);
  }

  lemma StepCommitInstall(s: State, i: int, j: int)
    requires Inv(s) && Enabled(s, CommitInstall(i, j))
    ensures Good(s, CommitInstall(i, j), Apply(s, CommitInstall(i, j)))
  {
    hide Recovered, Current, Shape, BufOk, Unique, PinsOk, DirtyOk, Protocol, OnDisk, SyncOk, Written, Unpinned;
    var s' := Apply(s, CommitInstall(i, j));
    CommitInstalls(s, i, j);
    InstallFrame(s, s', j);
    InstallKeepsBufs(s, s', j);
    InstallKeepsPins(s, s', j);
    InstallReadsSame(s, s', j);
    InstallKeepsDisk(s, s', j);
    assert Active(s') == Active(s);
  }

  lemma CommitInstalls(s: State, i: int, j: int)
    requires Inv(s) && Enabled(s, CommitInstall(i, j))
    ensures Installs(s, Apply(s, CommitInstall(i, j)), j)
  {
    hide BufOk, PinsOk, SyncOk, Unique, DirtyOk, LogHoldsCached, Unsettled, Written;
    var t := s.pc.tail;
    QuietIsClean(s);
    assert BufOk(s, i) && LogHoldsCached(s, t);
    CleanLogBuffer(s, i);
    HeldCopy(s, j, t);
  }

  /** A clean buffer of a log-area block holds what the disk does. */
  lemma CleanLogBuffer(s: State, i: int)
    requires Shape(s) && HasBuf(s, i) && BufOk(s, i) && !s.bufs[i].dirty && s.bufs[i].dev == ROOTDEV && s.bufs[i].valid
    requires s.start <= s.bufs[i].blockno <= s.start + LOGBLOCKS
    ensures s.bufs[i].data == s.disk[s.bufs[i].blockno]
  {
    NotLogged(s, s.bufs[i].blockno);
  }

  lemma HeldCopy(s: State, j: int, k: int)
    requires Shape(s) && 0 <= k < |s.lh| && LogHoldsCached(s, k)
    requires HasBuf(s, j) && Caches(s.bufs[j], s.lh[k]) && s.bufs[j].valid
    ensures s.bufs[j].data == s.disk[s.start + 1 + k]
  {
  }

  lemma NotLogged(s: State, b: int)
    requires Shape(s) && s.start <= b <= s.start + LOGBLOCKS
    ensures b !in Unsettled(s)
  {
    assert forall k :: 0 <= k < |s.lh| ==> Home(s.lh[k], s.start);
  }

  /** install_trans copies one log block home: buffer j, already equal to it, is written and unpinned. */
  ghost predicate Installs(s: State, s': State, j: int) {
    && Shape(s) && s.pc.Install? && s.pc.tail < |s.lh| && Clean(s)
    && HasBuf(s, j) && Caches(s.bufs[j], s.lh[s.pc.tail]) && s.bufs[j].valid
    && s.bufs[j].data == s.disk[s.start + 1 + s.pc.tail]
    && s' == Unpinned(Written(s, j, s.bufs[j].data), j).(pc := Install(s.pc.tail + 1))
  }

  lemma InstallFrame(s: State, s': State, j: int)
    requires Inv(s) && Installs(s, s', j)
    ensures Shape(s') && Unique(s') && DirtyOk(s') && Protocol(s') && SyncOk(s')
    ensures s'.ops == s.ops && s'.ended == s.ended && s'.ncommit == s.ncommit && s'.pc.Install?
  {
    hide BufOk, PinsOk, OnDisk;
    assert Unique(s') by {
      hide DirtyOk, Protocol, SyncOk;
      forall m | HasBuf(s', m) ensures HasBuf(s, m) {}
    }
  }

  /** The block installed is the first of those that were unsettled, and occurs once. */
  lemma InstallSettles(s: State, s': State, j: int)
    requires Installs(s, s', j)
    ensures Unsettled(s) == [s.lh[s.pc.tail]] + Unsettled(s') && s.lh[s.pc.tail] !in Unsettled(s')
  {
  }

  lemma InstallKeepsBufs(s: State, s': State, j: int)
    requires Installs(s, s', j) && Unique(s) && forall m :: HasBuf(s, m) ==> BufOk(s, m)
    ensures forall m :: HasBuf(s', m) ==> BufOk(s', m)
  {
    InstallSettles(s, s', j);
    hide Unsettled;
    forall m | HasBuf(s', m) ensures BufOk(s', m) { assert BufOk(s, m) && HasBuf(s, m) && HasBuf(s, j); }
  }

  lemma InstallKeepsPins(s: State, s': State, j: int)
    requires Installs(s, s', j) && PinsOk(s)
    ensures PinsOk(s')
  {
    InstallSettles(s, s', j);
    hide Unsettled;
    forall k | 0 <= k < |Unsettled(s')| ensures Cached(s', Unsettled(s')[k]) {
      assert Cached(s, Unsettled(s)[k + 1]);
      var m :| HasBuf(s, m) && Caches(s.bufs[m], Unsettled(s')[k]) && s.bufs[m].valid;
      assert HasBuf(s', m) && Caches(s'.bufs[m], Unsettled(s')[k]) && s'.bufs[m].valid;
    }
  }

  lemma InstallReadsSame(s: State, s': State, j: int)
    requires Installs(s, s', j) && Unique(s) && Unique(s')
    ensures CurrentMap(s') == CurrentMap(s)
  {
    hide Current;
    var s0 := s'.(disk := s.disk);
    assert Home(s.lh[s.pc.tail], s.start);
    assert Unique(s0) by { forall m | HasBuf(s0, m) ensures HasBuf(s', m) {} }
    forall c | 0 <= c < |s.disk| ensures Current(s', c) == Current(s, c) {
      if c == s.lh[s.pc.tail] {
        CurrentAt(s', j);
        CurrentAt(s, j);
      } else {
        SameCurrent(s, s0, c);
        SameDiskBlock(s0, s', c);
      }
    }
  }

  lemma InstallKeepsDisk(s: State, s': State, j: int)
    requires Installs(s, s', j) && OnDisk(s) && Shape(s')
    ensures OnDisk(s') && Recovered(s'.disk, s'.start) == Recovered(s.disk, s.start)
  {
    hide Recovered, LogHoldsCached;
    var t := s.pc.tail;
    forall k | t + 1 <= k < |s.lh| ensures LogHoldsCached(s', k) { InstallHolds(s, s', j, k); }
    assert s'.disk == s.disk[s.lh[t] := s.disk[s.start + 1 + t]];
    assert Home(s.lh[t], s.start);
    HomeWriteKeepsRecovered(s.disk, s.start, t);
  }

  lemma InstallHolds(s: State, s': State, j: int, k: int)
    requires Shape(s) && Shape(s') && s.pc.Install? && s.pc.tail < k < |s.lh| && LogHoldsCached(s, k)
    requires HasBuf(s, j) && s.bufs[j].blockno == s.lh[s.pc.tail]
    requires s' == Unpinned(Written(s, j, s.bufs[j].data), j).(pc := Install(s.pc.tail + 1))
    ensures LogHoldsCached(s', k)
  {
    assert Home(s.lh[s.pc.tail], s.start);
    forall m | HasBuf(s', m) && Caches(s'.bufs[m], s'.lh[k]) && s'.bufs[m].valid
      ensures s'.bufs[m].data == s'.disk[s'.start + 1 + k]
    {
      assert HasBuf(s, m);
    }
  }

  /** Copying log block t home changes nothing recovery would not. */
  lemma HomeWriteKeepsRecovered(d: seq<Block>, start: nat, t: nat)
    requires GoodHead(d, start) && t < |HeadList(d[start])|
    ensures var d' := d[HeadList(d[start])[t] := d[start + 1 + t]];
      GoodHead(d', start) && Recovered(d', start) == Recovered(d, start)
  {
    var l := HeadList(d[start]);
    var d' := d[l[t] := d[start + 1 + t]];
    assert Home(l[t], start) && d'[start] == d[start];
    forall c | 0 <= c < |d| && Home(c, start) ensures Overlay(d', start, l, c) == Overlay(d, start, l, c) {
      if k :| 0 <= k < |l| && l[k] == c {
        OverlayAt(d, start, l, k);
        OverlayAt(d', start, l, k);
      }
    }
  }

  /** The second write_head: all logged blocks are home, so an empty header means the same. */
  lemma ClearKeepsRecovered(d: seq<Block>, start: nat, h: Block)
    requires GoodHead(d, start) && HeadCount(h) == 0
    requires forall k :: 0 <= k < |HeadList(d[start])| ==> d[HeadList(d[start])[k]] == d[start + 1 + k]
    ensures GoodHead(d[start := h], start) && Recovered(d[start := h], start) == Recovered(d, start)
  {
    var l := HeadList(d[start]);
    var d' := d[start := h];
    forall c | 0 <= c < |d| && Home(c, start) ensures Overlay(d', start, [], c) == Overlay(d, start, l, c) {
      if k :| 0 <= k < |l| && l[k] == c { OverlayAt(d, start, l, k); }
    }
  }

  lemma StepCommitClear(s: State, i: int)
    requires Inv(s) && Enabled(s, CommitClear(i))
    ensures Good(s, CommitClear(i), Apply(s, CommitClear(i)))
  {
    var s' := Apply(s, CommitClear(i));
    QuietIsClean(s);
    assert Unsettled(s') == [] == Unsettled(s);
    LogAreaWriteKeeps(s, s', i, HeadImage(s.bufs[i].data, []));
    UnusedBounds(s.ops);
    ClearKeepsRecovered(s.disk, s.start, HeadImage(s.bufs[i].data, []));
  }

  // ---------------------------------------------------------------- recovery

  lemma StepRecoverHead(s: State, i: int)
    requires Inv(s) && Enabled(s, RecoverHead(i))
    ensures Good(s, RecoverHead(i), Apply(s, RecoverHead(i)))
  {
    var s' := Apply(s, RecoverHead(i));
    QuietIsClean(s);
    assert BufOk(s, i) && s.bufs[i].data == s.disk[s.start];
    assert Unsettled(s') == [] == Unsettled(s);
    forall m | HasBuf(s', m) ensures BufOk(s', m) { assert BufOk(s, m); }
    assert Unique(s') by { forall m | HasBuf(s', m) ensures HasBuf(s, m) {} }
  }

  lemma StepRecoverInstall(s: State, i: int, j: int)
    requires Inv(s) && Enabled(s, RecoverInstall(i, j))
    ensures Good(s, RecoverInstall(i, j), Apply(s, RecoverInstall(i, j)))
  {
    hide Recovered, Current, BufOk, Unique, PinsOk, DirtyOk, Protocol, OnDisk, SyncOk;
    var s' := Apply(s, RecoverInstall(i, j));
    RecoverInstallFrame(s, i, j);
    RecoverInstallBufs(s, s', j);
    RecoverInstallDisk(s, s', j);
    assert Active(s') == Active(s);
  }

  /** Recovery copies log block tail home, through a clean buffer of it. */
  ghost predicate Reinstalls(s: State, s': State, j: int) {
    && Shape(s) && s.pc.Reinstall? && s.pc.tail < |s.lh| && Clean(s)
    && HasBuf(s, j) && Caches(s.bufs[j], s.lh[s.pc.tail]) && s.bufs[j].valid
    && s' == Written(s, j, s.disk[s.start + 1 + s.pc.tail]).(pc := Reinstall(s.pc.tail + 1))
  }

  lemma RecoverInstallFrame(s: State, i: int, j: int)
    requires Inv(s) && Enabled(s, RecoverInstall(i, j))
    ensures var s' := Apply(s, RecoverInstall(i, j));
      && Reinstalls(s, s', j) && Shape(s') && DirtyOk(s') && Protocol(s')
      && SyncOk(s') && PinsOk(s') && GoodHead(s.disk, s.start)
  {
    hide BufOk, Unique, LogHoldsCached;
    QuietIsClean(s);
    assert BufOk(s, i);
    CleanLogBuffer(s, i);
    assert Unsettled(Apply(s, RecoverInstall(i, j))) == [];
  }

  lemma RecoverInstallBufs(s: State, s': State, j: int)
    requires Reinstalls(s, s', j) && Unique(s) && forall m :: HasBuf(s, m) ==> BufOk(s, m)
    ensures Unique(s') && forall m :: HasBuf(s', m) ==> BufOk(s', m)
  {
    assert Unsettled(s') == [] == Unsettled(s);
    hide Unsettled;
    forall m | HasBuf(s', m) ensures BufOk(s', m) { assert BufOk(s, m) && HasBuf(s, m) && HasBuf(s, j); }
    assert Unique(s') by { hide BufOk; forall m | HasBuf(s', m) ensures HasBuf(s, m) {} }
  }

  lemma RecoverInstallDisk(s: State, s': State, j: int)
    requires Reinstalls(s, s', j) && Shape(s') && OnDisk(s)
    ensures OnDisk(s') && Recovered(s'.disk, s'.start) == Recovered(s.disk, s.start)
  {
    hide Recovered, LogHoldsCached;
    var t := s.pc.tail;
    assert s'.disk == s.disk[s.lh[t] := s.disk[s.start + 1 + t]];
    assert Home(s.lh[t], s.start);
    HomeWriteKeepsRecovered(s.disk, s.start, t);
  }

  lemma StepRecoverClear(s: State, i: int)
    requires Inv(s) && Enabled(s, RecoverClear(i))
    ensures Good(s, RecoverClear(i), Apply(s, RecoverClear(i)))
  {
    var s' := Apply(s, RecoverClear(i));
    QuietIsClean(s);
    assert Unsettled(s') == [] == Unsettled(s);
    LogAreaWriteKeeps(s, s', i, HeadImage(s.bufs[i].data, []));
    UnusedBounds(s.ops);
    ClearKeepsRecovered(s.disk, s.start, HeadImage(s.bufs[i].data, []));
    RecoveredIsCurrent(s');
  }

  /** With an empty header and a clean cache, what is durable is what readers find. */
  lemma RecoveredIsCurrent(s: State)
    requires Inv(s) && Clean(s) && Unsettled(s) == [] && HeadCount(s.disk[s.start]) == 0
    ensures Recovered(s.disk, s.start) == CurrentMap(s)
  {
    CleanCurrent(s);
  }

  lemma StepCrash(s: State)
    requires Inv(s)
    ensures Good(s, Crash, Booted(s.disk, s.start))
  {
    BootIsGood(s.disk, s.start);
  }

  lemma BootIsGood(disk: seq<Block>, start: nat)
    requires GoodHead(disk, start)
    ensures Inv(Booted(disk, start)) && Active(Booted(disk, start)) == map[]
  {
    var s' := Booted(disk, start);
    AllClosed(NPROC);
    forall i | HasBuf(s', i) ensures BufOk(s', i) {}
  }

  /** The waiters of sys_sync are all that changes. */
  lemma SyncsKeep(s: State, s': State)
    requires Inv(s) && s' == s.(syncs := s'.syncs) && |s'.syncs| == NPROC && SyncOk(s')
    ensures Inv(s') && Abs(s') == Abs(s)
  {
    SameCacheKeeps(s, s');
    assert OnDisk(s');
  }

  lemma StepSyncCall(s: State, p: int)
    requires Inv(s) && Enabled(s, SyncCall(p))
    ensures Good(s, SyncCall(p), Apply(s, SyncCall(p)))
  {
    SyncsKeep(s, Apply(s, SyncCall(p)));
  }

  lemma StepSyncReturn(s: State, p: int)
    requires Inv(s) && Enabled(s, SyncReturn(p))
    ensures Good(s, SyncReturn(p), Apply(s, SyncReturn(p)))
  {
    SyncsKeep(s, Apply(s, SyncReturn(p)));
  }

  // ---------------------------------------------------------------- the theorems

  /**
    Refinement: every step, whatever process takes it, keeps the invariant and is one
    event of the durable store.
   */
  lemma StepRefines(s: State, step: Step)
    requires Inv(s) && Enabled(s, step)
    ensures Good(s, step, Apply(s, step))
  {
    if step.Crash? { StepCrash(s); }
    else if LogStep(step) { LogStepRefines(s, step); }
    else { ProcessStepRefines(s, step); }
  }

  /** The steps of commit() and recover_from_log(). */
  predicate LogStep(step: Step) {
    || step.CommitLog? || step.CommitEmpty? || step.CommitHead? || step.CommitInstall? || step.CommitClear?
    || step.CommitDone? || step.RecoverHead? || step.RecoverInstall? || step.RecoverClear?
  }

  lemma LogStepRefines(s: State, step: Step)
    requires Inv(s) && Enabled(s, step) && LogStep(step)
    ensures Good(s, step, Apply(s, step))
  {
    hide Inv, Good, Enabled;
    match step
    case CommitLog(i, j) => StepCommitLog(s, i, j);
    case CommitEmpty => StepCommitEmpty(s);
    case CommitHead(i) => StepCommitHead(s, i);
    case CommitInstall(i, j) => StepCommitInstall(s, i, j);
    case CommitClear(i) => StepCommitClear(s, i);
    case CommitDone => StepCommitDone(s);
    case RecoverHead(i) => StepRecoverHead(s, i);
    case RecoverInstall(i, j) => StepRecoverInstall(s, i, j);
    case RecoverClear(i) => StepRecoverClear(s, i);
  }

  lemma ProcessStepRefines(s: State, step: Step)
    requires Inv(s) && Enabled(s, step) && !LogStep(step) && !step.Crash?
    ensures Good(s, step, Apply(s, step))
  {
    hide Inv, Good, Enabled;
    match step
    case BeginOp(p) => StepBeginOp(s, p);
    case EndOp(p) => StepEndOp(s, p);
    case BgetHit(p, i, b) => StepBgetHit(s, p, i, b);
    case BgetMiss(p, i, b) => StepBgetMiss(s, p, i, b);
    case LockBuf(p, i) => StepLockBuf(s, p, i);
    case ReadBuf(p, i) => StepReadBuf(s, p, i);
    case Modify(p, i, data) => StepModify(s, p, i, data);
    case LogWrite(p, i) => StepLogWrite(s, p, i);
    case UnlockBuf(p, i) => StepUnlockBuf(s, p, i);
    case DropBuf(p, i) => StepDropBuf(s, p, i);
    case SyncCall(p) => StepSyncCall(s, p);
    case SyncReturn(p) => StepSyncReturn(s, p);
  }

  /** In every state of every run the invariant holds. */
  lemma {:induction false} RunKeepsInv(run: seq<State>, k: nat)
    requires IsRun(run) && k < |run|
    ensures Inv(run[k])
  {
    if k == 0 {
      BootIsGood(run[0].disk, run[0].start);
    } else {
      RunKeepsInv(run, k - 1);
      assert Next(run[k - 1], run[k]);
      var step :| Enabled(run[k - 1], step) && run[k] == Apply(run[k - 1], step);
      StepRefines(run[k - 1], step);
    }
  }

  ghost predicate StoreStep(a: Store, a': Store) {
    exists e :: StoreNext(a, a', e)
  }

  /**
    Crash safety: seen through Abs, every run, with crashes anywhere, is a run of the
    durable store, so what recovery restores is always the contents at the last commit.
   */
  lemma RunRefinesStore(run: seq<State>, k: nat)
    requires IsRun(run) && k + 1 < |run|
    ensures Inv(run[k]) && Inv(run[k + 1]) && StoreStep(Abs(run[k]), Abs(run[k + 1]))
  {
    RunKeepsInv(run, k);
    assert Next(run[k], run[k + 1]);
    var step :| Enabled(run[k], step) && run[k + 1] == Apply(run[k], step);
    StepRefines(run[k], step);
  }

  /** No commit separates an operation's writes: it ends in the epoch it began in, in every run. */
  lemma OperationsAreWhole(run: seq<State>, k: nat)
    requires IsRun(run) && k < |run|
    ensures Inv(run[k])
    ensures forall p :: p in Abs(run[k]).active ==> Abs(run[k]).active[p] == Abs(run[k]).epoch
    ensures forall e :: 0 <= e < |Abs(run[k]).ended| ==> Abs(run[k]).ended[e].0 == Abs(run[k]).ended[e].1
    ensures run[k].committing ==> run[k].outstanding == 0
    ensures !Recovering(run[k]) && !run[k].committing && run[k].outstanding == 0 ==>
      run[k].lh == [] && Abs(run[k]).durable == Abs(run[k]).current
  {
    var s := run[k];
    RunKeepsInv(run, k);
    if s.outstanding == 0 {
      QuietIsClean(s);
      if s.pc == Idle { RecoveredIsCurrent(s); }
    }
  }

  /** A reader that holds a valid buffer finds the store's current contents, in every run. */
  lemma ReadsAreCurrent(run: seq<State>, k: nat, p: int, i: int, b: int)
    requires IsRun(run) && k < |run| && !Recovering(run[k])
    requires IsProc(p) && HoldsBlock(run[k], p, i, b) && Home(b, run[k].start)
    ensures Inv(run[k]) && b in Abs(run[k]).current && run[k].bufs[i].data == Abs(run[k]).current[b]
  {
    RunKeepsInv(run, k);
    assert BufOk(run[k], i);
    CurrentAt(run[k], i);
  }

  /** A logged block not yet installed is cached and pinned, so bget never recycles its buffer. */
  lemma LoggedStaysPinned(run: seq<State>, k: nat, b: int)
    requires IsRun(run) && k < |run| && b in Unsettled(run[k])
    ensures exists i ::
      HasBuf(run[k], i) && Caches(run[k].bufs[i], b) && run[k].bufs[i].valid && run[k].bufs[i].refcnt > 0
  {
    var s := run[k];
    RunKeepsInv(run, k);
    var n :| 0 <= n < |Unsettled(s)| && Unsettled(s)[n] == b;
    assert Cached(s, Unsettled(s)[n]);
    var i :| HasBuf(s, i) && Caches(s.bufs[i], b) && s.bufs[i].valid;
    assert BufOk(s, i);
  }

  /** When sys_sync returns, every operation that had ended when it was called is durable. */
  lemma SyncIsDurable(run: seq<State>, k: nat, p: int)
    requires IsRun(run) && k < |run| && IsProc(p)
    requires Enabled(run[k], SyncReturn(p))
    ensures Inv(run[k]) && run[k].syncs[p].need <= |Abs(run[k]).ended|
    ensures forall e :: 0 <= e < run[k].syncs[p].need ==> Abs(run[k]).ended[e].1 < Abs(run[k]).epoch
  {
    RunKeepsInv(run, k);
  }

  /** sys_sync may return at once when the log is idle: all that ended is durable already. */
  lemma IdleSyncIsDurable(run: seq<State>, k: nat)
    requires IsRun(run) && k < |run| && !Recovering(run[k]) && !run[k].committing && run[k].outstanding == 0
    ensures Inv(run[k])
    ensures forall e :: 0 <= e < |Abs(run[k]).ended| ==> Abs(run[k]).ended[e].1 < Abs(run[k]).epoch
  {
    RunKeepsInv(run, k);
  }

  /** end_op's check for a commit in progress never fires, and log_write never finds the log full. */
  lemma NoLogPanic(run: seq<State>, k: nat, p: int)
    requires IsRun(run) && k < |run| && IsProc(p) && |run[k].ops| == NPROC && run[k].ops[p].InOp?
    ensures !run[k].committing && run[k].outstanding >= 1
    ensures run[k].ops[p].appended < MAXOPBLOCKS ==> |run[k].lh| < LOGBLOCKS
  {
    RunKeepsInv(run, k);
    OpenAtLeast(run[k].ops, p);
    if run[k].ops[p].appended < MAXOPBLOCKS { NeverTooBig(run[k], p); }
  }
}
