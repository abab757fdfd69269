/**
  The sequential code of log.c: log_write, write_log, write_head, install_trans,
  commit and recover_from_log, over a disk whose block writes are atomic.

  `trace` records the disk after every bwrite: a crash leaves one of these disks.
 */
module Wal {
  import opened Params
  import opened Blocks

  /** The disk after k of the writes of write_log: log block i holds the cached copy of l[i]. */
  function Logging(d: seq<Block>, start: nat, from: seq<Block>, k: nat): (r: seq<Block>)
    requires LogFits(d, start) && k <= |from| <= LOGBLOCKS
    ensures |r| == |d|
  {
    if k == 0 then d else Logging(d, start, from, k - 1)[start + k := from[k - 1]]
  }

  /** The disk after k of the writes of install_trans. */
  function Installing(d: seq<Block>, start: nat, l: seq<int>, k: nat): (r: seq<Block>)
    requires LogFits(d, start) && k <= |l| <= LOGBLOCKS
    requires forall i :: 0 <= i < |l| ==> 0 <= l[i] < |d|
    ensures |r| == |d|
  {
    if k == 0 then d
    else var r := Installing(d, start, l, k - 1); r[l[k - 1] := r[start + k]]
  }

  function HeadWritten(d: seq<Block>, start: nat, l: seq<int>): (r: seq<Block>)
    requires LogFits(d, start) && |l| <= LOGBLOCKS
    ensures |r| == |d|
  {
    d[start := HeadImage(d[start], l)]
  }

  /** The disk after the first k disk writes of commit(): |l| log blocks, the header, |l| home blocks, the header. */
  function Committing(d: seq<Block>, start: nat, l: seq<int>, from: seq<Block>, k: nat): (r: seq<Block>)
    requires LogFits(d, start) && |l| == |from| <= LOGBLOCKS && k <= 2 * |l| + 2
    requires forall i :: 0 <= i < |l| ==> 0 <= l[i] < |d|
    ensures |r| == |d|
  {
    if k <= |l| then Logging(d, start, from, k)
    else
      var c := HeadWritten(Logging(d, start, from, |l|), start, l);
      if k <= 2 * |l| + 1 then Installing(c, start, l, k - |l| - 1)
      else HeadWritten(Installing(c, start, l, |l|), start, [])
  }

  /** The disk after the first k disk writes of recover_from_log(). */
  function Recovery(d: seq<Block>, start: nat, k: nat): (r: seq<Block>)
    requires GoodHead(d, start) && k <= HeadCount(d[start]) + 1
    ensures |r| == |d|
  {
    var l := HeadList(d[start]);
    if k <= |l| then Installing(d, start, l, k) else HeadWritten(Installing(d, start, l, |l|), start, [])
  }

  // ---------------------------------------------------------------- what the writes mean

  lemma {:induction false} LoggingAt(d: seq<Block>, start: nat, from: seq<Block>, k: nat, b: int)
    requires LogFits(d, start) && k <= |from| <= LOGBLOCKS && 0 <= b < |d|
    ensures Logging(d, start, from, k)[b] == if start < b <= start + k then from[b - start - 1] else d[b]
  {
    if k > 0 { LoggingAt(d, start, from, k - 1, b); }
  }

  /** After k writes, install_trans has copied exactly the first k log blocks home. */
  lemma {:induction false} InstallingAt(d: seq<Block>, start: nat, l: seq<int>, k: nat, b: int)
    requires LogFits(d, start) && GoodList(l, d, start) && k <= |l| && 0 <= b < |d|
    ensures Installing(d, start, l, k)[b] == if b in l[..k] then Overlay(d, start, l, b) else d[b]
  {
    if k > 0 {
      InstallingAt(d, start, l, k - 1, b);
      InstallingAt(d, start, l, k - 1, start + k);
      assert Home(l[k - 1], start);
      assert l[..k] == l[..k - 1] + [l[k - 1]];
      assert start + k !in l[..k - 1] by { assert forall i :: 0 <= i < |l| ==> Home(l[i], start); }
      OverlayAt(d, start, l, k - 1);
    }
  }

  /** Installing committed blocks, all or some of them, changes nothing recovery would not. */
  lemma InstallingKeepsRecovered(d: seq<Block>, start: nat, k: nat)
    requires GoodHead(d, start) && k <= HeadCount(d[start])
    ensures var d' := Installing(d, start, HeadList(d[start]), k);
      d'[start] == d[start] && GoodHead(d', start) && Recovered(d', start) == Recovered(d, start)
  {
    var l := HeadList(d[start]);
    var d' := Installing(d, start, l, k);
    assert forall i :: 0 <= i < |l| ==> Home(l[i], start);
    InstallingAt(d, start, l, k, start);
    forall b | 0 <= b < |d| && Home(b, start) ensures Overlay(d', start, l, b) == Overlay(d, start, l, b) {
      InstallingAt(d, start, l, k, b);
      if i :| 0 <= i < |l| && l[i] == b {
        InstallingAt(d, start, l, k, start + 1 + i);
        OverlayAt(d, start, l, i);
        OverlayAt(d', start, l, i);
      }
    }
  }

  /** Erasing the header after a full install: the home blocks now hold what recovery would give. */
  lemma ClearedIsRecovered(d: seq<Block>, start: nat)
    requires GoodHead(d, start)
    ensures var l := HeadList(d[start]);
      var d' := HeadWritten(Installing(d, start, l, |l|), start, []);
      && GoodHead(d', start) && HeadCount(d'[start]) == 0 && Recovered(d', start) == Recovered(d, start)
      && (forall b :: 0 <= b < |d| && Home(b, start) ==> d'[b] == Recovered(d, start)[b])
  {
    var l := HeadList(d[start]);
    var d' := HeadWritten(Installing(d, start, l, |l|), start, []);
    assert l[..|l|] == l;
    forall b | 0 <= b < |d| && Home(b, start) ensures d'[b] == Overlay(d, start, l, b) {
      InstallingAt(d, start, l, |l|, b);
    }
  }

  /** Recovery may crash after any of its own writes: the disk still means what it meant. */
  lemma RecoveryKeepsMeaning(d: seq<Block>, start: nat, k: nat)
    requires GoodHead(d, start) && k <= HeadCount(d[start]) + 1
    ensures GoodHead(Recovery(d, start, k), start)
    ensures Recovered(Recovery(d, start, k), start) == Recovered(d, start)
  {
    if k <= HeadCount(d[start]) { InstallingKeepsRecovered(d, start, k); } else { ClearedIsRecovered(d, start); }
  }

  /** One boot that crashes during recovery, after some of its writes. */
  ghost predicate CrashedRecovery(d: seq<Block>, d': seq<Block>, start: nat)
    requires GoodHead(d, start)
  {
    exists k: nat :: k <= HeadCount(d[start]) + 1 && d' == Recovery(d, start, k)
  }

  ghost predicate CrashChain(ds: seq<seq<Block>>, start: nat) {
    && |ds| > 0
    && (forall i :: 0 <= i < |ds| - 1 ==> GoodHead(ds[i], start) && CrashedRecovery(ds[i], ds[i + 1], start))
  }

  /** Any number of crashes inside recovery, then one that completes: the same home blocks every time. */
  lemma {:induction false} RecoveryIsIdempotent(ds: seq<seq<Block>>, start: nat)
    requires CrashChain(ds, start) && GoodHead(ds[0], start)
    ensures var d := ds[|ds| - 1];
      && GoodHead(d, start) && Recovered(d, start) == Recovered(ds[0], start)
      && var r := Recovery(d, start, HeadCount(d[start]) + 1);
      HeadCount(r[start]) == 0 && |r| == |ds[0]| &&
      forall b :: 0 <= b < |r| && Home(b, start) ==> r[b] == Recovered(ds[0], start)[b]
  {
    if |ds| == 1 {
      ClearedIsRecovered(ds[0], start);
    } else {
      var k: nat :| k <= HeadCount(ds[0][start]) + 1 && ds[1] == Recovery(ds[0], start, k);
      RecoveryKeepsMeaning(ds[0], start, k);
      RecoveryIsIdempotent(ds[1..], start);
    }
  }

  /** Block b after the transaction: a logged block is replaced by its cached copy. */
  ghost function AfterAt(d: seq<Block>, l: seq<int>, from: seq<Block>, b: int): Block
    requires 0 <= b < |d| && |l| == |from|
  {
    if b in l then var i :| 0 <= i < |l| && l[i] == b; from[i] else d[b]
  }

  ghost function After(d: seq<Block>, start: nat, l: seq<int>, from: seq<Block>): map<int, Block>
    requires |l| == |from|
  {
    map b | 0 <= b < |d| && Home(b, start) :: AfterAt(d, l, from, b)
  }

  lemma AfterIs(d: seq<Block>, l: seq<int>, from: seq<Block>, i: nat)
    requires |l| == |from| && Distinct(l) && i < |l| && 0 <= l[i] < |d|
    ensures AfterAt(d, l, from, l[i]) == from[i]
  {
  }

  /**
    Crash atomicity of commit(): stopped after any k of its writes, the disk means the old
    contents if the header is not written yet (k <= |l|) and the new ones from then on.
   */
  lemma CommitIsAtomic(d: seq<Block>, start: nat, l: seq<int>, from: seq<Block>, k: nat)
    requires GoodHead(d, start) && HeadCount(d[start]) == 0
    requires GoodList(l, d, start) && |l| == |from| && k <= 2 * |l| + 2
    ensures var d' := Committing(d, start, l, from, k);
      GoodHead(d', start) &&
      Recovered(d', start) == if k <= |l| then Recovered(d, start) else After(d, start, l, from)
  {
    if k <= |l| {
      LoggingKeepsRecovered(d, start, from, k);
    } else {
      var c := HeadWritten(Logging(d, start, from, |l|), start, l);
      HeadSwitches(d, start, l, from);
      if k <= 2 * |l| + 1 { InstallingKeepsRecovered(c, start, k - |l| - 1); } else { ClearedIsRecovered(c, start); }
    }
  }

  lemma LoggingKeepsRecovered(d: seq<Block>, start: nat, from: seq<Block>, k: nat)
    requires GoodHead(d, start) && HeadCount(d[start]) == 0 && k <= |from| <= LOGBLOCKS
    ensures GoodHead(Logging(d, start, from, k), start)
    ensures Recovered(Logging(d, start, from, k), start) == Recovered(d, start)
  {
    LoggingAt(d, start, from, k, start);
    forall b | 0 <= b < |d| && Home(b, start) ensures Logging(d, start, from, k)[b] == d[b] {
      LoggingAt(d, start, from, k, b);
    }
  }

  lemma HeadSwitches(d: seq<Block>, start: nat, l: seq<int>, from: seq<Block>)
    requires GoodHead(d, start) && HeadCount(d[start]) == 0 && GoodList(l, d, start) && |l| == |from|
    ensures var c := HeadWritten(Logging(d, start, from, |l|), start, l);
      GoodHead(c, start) && HeadList(c[start]) == l && Recovered(c, start) == After(d, start, l, from)
  {
    var w := Logging(d, start, from, |l|);
    var c := HeadWritten(w, start, l);
    LoggingAt(d, start, from, |l|, start);
    forall b | 0 <= b < |d| && Home(b, start) ensures Overlay(c, start, l, b) == AfterAt(d, l, from, b) {
      SwitchedAt(d, start, l, from, c, b);
    }
  }

  lemma SwitchedAt(d: seq<Block>, start: nat, l: seq<int>, from: seq<Block>, c: seq<Block>, b: int)
    requires LogFits(d, start) && GoodList(l, d, start) && |l| == |from| && 0 <= b < |d| && Home(b, start)
    requires c == HeadWritten(Logging(d, start, from, |l|), start, l)
    ensures Overlay(c, start, l, b) == AfterAt(d, l, from, b)
  {
    if b in l {
      var i :| 0 <= i < |l| && l[i] == b;
      SwitchedIn(d, start, l, from, c, i);
    } else {
      LoggingAt(d, start, from, |l|, b);
    }
  }

  lemma SwitchedIn(d: seq<Block>, start: nat, l: seq<int>, from: seq<Block>, c: seq<Block>, i: int)
    requires LogFits(d, start) && GoodList(l, d, start) && |l| == |from| && 0 <= i < |l|
    requires c == HeadWritten(Logging(d, start, from, |l|), start, l)
    ensures Overlay(c, start, l, l[i]) == AfterAt(d, l, from, l[i])
  {
    hide Logging, Overlay, AfterAt, HeadImage;
    assert c[start + 1 + i] == from[i] by { LoggingAt(d, start, from, |l|, start + 1 + i); }
    assert GoodList(l, c, start);
    hide HeadWritten;
    AfterIs(d, l, from, i);
    OverlayAt(c, start, l, i);
  }

  // ---------------------------------------------------------------- write by write

  function LoggingSteps(d: seq<Block>, start: nat, from: seq<Block>): (r: seq<seq<Block>>)
    requires LogFits(d, start) && |from| <= LOGBLOCKS
    ensures |r| == |from|
  {
    seq(|from|, k requires 0 <= k < |from| => Logging(d, start, from, k + 1))
  }

  function InstallingSteps(d: seq<Block>, start: nat, l: seq<int>): (r: seq<seq<Block>>)
    requires LogFits(d, start) && |l| <= LOGBLOCKS && forall i :: 0 <= i < |l| ==> 0 <= l[i] < |d|
    ensures |r| == |l|
  {
    seq(|l|, k requires 0 <= k < |l| => Installing(d, start, l, k + 1))
  }

  /** The disks that commit() leaves one after the other. */
  function CommitSteps(d: seq<Block>, start: nat, l: seq<int>, from: seq<Block>): (r: seq<seq<Block>>)
    requires LogFits(d, start) && |l| == |from| <= LOGBLOCKS
    requires forall i :: 0 <= i < |l| ==> 0 <= l[i] < |d|
    ensures |r| == 2 * |l| + 2
    ensures forall k :: 0 <= k < |r| ==> r[k] == Committing(d, start, l, from, k + 1)
  {
    var c := HeadWritten(Logging(d, start, from, |l|), start, l);
    LoggingSteps(d, start, from) + [c] + InstallingSteps(c, start, l) +
    [HeadWritten(Installing(c, start, l, |l|), start, [])]
  }

  /** The disks that recover_from_log() leaves one after the other. */
  function RecoverySteps(d: seq<Block>, start: nat): (r: seq<seq<Block>>)
    requires GoodHead(d, start)
    ensures |r| == HeadCount(d[start]) + 1
    ensures forall k :: 0 <= k < |r| ==> r[k] == Recovery(d, start, k + 1)
  {
    var l := HeadList(d[start]);
    InstallingSteps(d, start, l) + [HeadWritten(Installing(d, start, l, |l|), start, [])]
  }

  /** The cached copies of the logged blocks. */
  function Copies(l: seq<int>, cache: map<int, Block>): (r: seq<Block>)
    requires forall i :: 0 <= i < |l| ==> l[i] in cache
    ensures |r| == |l|
  {
    seq(|l|, i requires 0 <= i < |l| => cache[l[i]])
  }

  // ---------------------------------------------------------------- the code

  datatype LogResult = Logged | PanicTooBig | PanicOutsideTransaction

  class Log {
    const start: nat
    var disk: seq<Block>
    ghost var trace: seq<seq<Block>>
    var n: int                     // log.lh.n
    const block: array<int>        // log.lh.block
    var outstanding: int
    var cache: map<int, Block>     // pinned modified blocks

    constructor (start: nat, disk: seq<Block>)
      requires LogFits(disk, start)
      ensures this.start == start && this.disk == disk && trace == [] && n == 0 && outstanding == 0
      ensures cache == map[] && fresh(block) && block.Length == LOGBLOCKS && Valid()
    {
      this.start := start;
      this.disk := disk;
      trace := [];
      n := 0;
      outstanding := 0;
      cache := map[];
      block := new int[LOGBLOCKS](i => 0);
    }

    ghost predicate Valid()
      reads this, block
    {
      && LogFits(disk, start) && block.Length == LOGBLOCKS && 0 <= n <= LOGBLOCKS
      && GoodList(Blocks(), disk, start)
      && (forall i :: 0 <= i < |Blocks()| ==> Blocks()[i] in cache)
    }

    /** The logged block numbers, oldest first. */
    ghost function Blocks(): seq<int>
      reads this, block
      requires block.Length == LOGBLOCKS && 0 <= n <= LOGBLOCKS
    {
      block[..n]
    }

    method Bwrite(b: int, data: Block)
      requires 0 <= b < |disk|
      modifies this`disk, this`trace
      ensures disk == old(disk)[b := data] && trace == old(trace) + [disk]
    {
      disk := disk[b := data];
      trace := trace + [disk];
    }

    /** log_write(b): b's modified contents are data, pinned in the cache from here on. */
    method LogWrite(b: int, data: Block) returns (r: LogResult)
      requires Valid() && 0 <= b < |disk| && Home(b, start)
      modifies this`n, this`cache, block
      ensures r == PanicTooBig <==> old(n) >= LOGBLOCKS
      ensures r == PanicOutsideTransaction <==> old(n) < LOGBLOCKS && outstanding < 1
      ensures r != Logged ==> n == old(n) && cache == old(cache) && block[..] == old(block[..])
      ensures Valid()
      ensures r == Logged ==> cache == old(cache)[b := data]
      ensures r == Logged ==> Blocks() == if b in old(Blocks()) then old(Blocks()) else old(Blocks()) + [b]
    {
      if n >= LOGBLOCKS { return PanicTooBig; }
      if outstanding < 1 { return PanicOutsideTransaction; }
      var i := 0;
      while i < n
        invariant 0 <= i <= n
        invariant b !in block[..i]
      {
        if block[i] == b { break; }
        i := i + 1;
      }
      ghost var was := block[..n];
      block[i] := b;
      assert i < n ==> block[..n] == was;
      if i == n {
        n := n + 1;
        assert block[..n] == was + [b];
      }
      cache := cache[b := data];
      r := Logged;
    }

    method WriteLog()
      requires Valid()
      modifies this`disk, this`trace
      ensures disk == Logging(old(disk), start, Copies(Blocks(), cache), n)
      ensures trace == old(trace) + LoggingSteps(old(disk), start, Copies(Blocks(), cache))
    {
      ghost var from := Copies(Blocks(), cache);
      var tail := 0;
      while tail < n
        invariant 0 <= tail <= n
        invariant disk == Logging(old(disk), start, from, tail)
        invariant trace == old(trace) + LoggingSteps(old(disk), start, from)[..tail]
      {
        Bwrite(start + tail + 1, cache[block[tail]]);
        tail := tail + 1;
      }
    }

    /** write_head(): the header buffer is updated word by word, then written. */
    method WriteHead()
      requires LogFits(disk, start) && block.Length == LOGBLOCKS && 0 <= n <= LOGBLOCKS
      modifies this`disk, this`trace
      ensures disk == HeadWritten(old(disk), start, Blocks()) && trace == old(trace) + [disk]
    {
      var hb: Block := disk[start][0 := n];
      var i := 0;
      while i < n
        invariant 0 <= i <= n && hb[0] == n
        invariant forall k :: 0 <= k < i ==> hb[1 + k] == block[k]
        invariant forall k :: 1 + i <= k < |hb| ==> hb[k] == disk[start][k]
      {
        hb := hb[1 + i := block[i]];
        i := i + 1;
      }
      assert hb == HeadImage(disk[start], Blocks());
      Bwrite(start, hb);
    }

    method InstallTrans()
      requires LogFits(disk, start) && block.Length == LOGBLOCKS && 0 <= n <= LOGBLOCKS
      requires GoodList(Blocks(), disk, start)
      modifies this`disk, this`trace
      ensures disk == Installing(old(disk), start, Blocks(), n)
      ensures trace == old(trace) + InstallingSteps(old(disk), start, Blocks())
    {
      var tail := 0;
      while tail < n
        invariant 0 <= tail <= n
        invariant disk == Installing(old(disk), start, Blocks(), tail)
        invariant trace == old(trace) + InstallingSteps(old(disk), start, Blocks())[..tail]
      {
        Bwrite(block[tail], disk[start + tail + 1]);
        tail := tail + 1;
      }
    }

    /** commit(): each of its disk writes leaves a disk that CommitIsAtomic speaks of. */
    method Commit()
      requires Valid()
      modifies this`disk, this`trace, this`n
      ensures old(n) == 0 ==> disk == old(disk) && trace == old(trace)
      ensures old(n) > 0 ==>
        var steps := CommitSteps(old(disk), start, old(Blocks()), Copies(old(Blocks()), cache));
        trace == old(trace) + steps && disk == steps[|steps| - 1]
      ensures n == 0
    {
      hide Logging, Installing, LoggingSteps, InstallingSteps;
      if n > 0 {
        WriteLog();
        WriteHead();
        InstallTrans();
        n := 0;
        WriteHead();
        assert Blocks() == [];
      }
    }

    /** recover_from_log(): read the header, install, erase the header. */
    method RecoverFromLog()
      requires GoodHead(disk, start) && block.Length == LOGBLOCKS
      modifies this`disk, this`trace, this`n, block
      ensures trace == old(trace) + RecoverySteps(old(disk), start)
      ensures disk == Recovery(old(disk), start, HeadCount(old(disk)[start]) + 1) && n == 0
    {
      var hb := disk[start];
      n := hb[0];
      var i := 0;
      while i < n
        invariant 0 <= i <= n <= LOGBLOCKS && n == HeadCount(hb) && disk == old(disk) && trace == old(trace)
        invariant forall k :: 0 <= k < i ==> block[k] == hb[1 + k]
      {
        block[i] := hb[1 + i];
        i := i + 1;
      }
      assert Blocks() == HeadList(hb);
      InstallTrans();
      n := 0;
      WriteHead();
      assert Blocks() == [];
    }
  }
}
