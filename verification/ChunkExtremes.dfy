/**
  How much of its log budget one chunk of filewrite (file.c) can use: all of it, on a disk
  that exists; and more than all of it, if files could have holes.
 */
module ChunkExtremes {
  import opened Params
  import opened FsState
  import opened FsCode
  import opened WriteBudget
  import opened FileIo

  // ---------------------------------------------------------------- a chunk that uses the whole budget

  /** A block that came into use is in one of the slots the write touched. */
  lemma WhereNew(g: Geometry, s0: Fs, s: Fs, i: int, lo: int, v: seq<Visit>, b: int) returns (k: int)
    requires Ok(g, s0) && Ok(g, s) && Course(g, s0, s, i, lo, v) && g.nmeta <= b < g.size && !s0.used[b] && s.used[b]
    ensures 0 <= k < SLOTS && InRange(k, lo, |v|) && SlotOf(s.blocks, s.inodes[i], k) == b
  {
    assert Referred(Refs(g, s), b);
    var q :| q in Refs(g, s) && Refs(g, s)[q] == b;
    RefsAt(g, s, q);
    hide Refs, Owned, SlotOf;
    k := q.slot;
    if SlotOf(s0.blocks, s0.inodes[q.inum], k) != 0 { SlotIsRef(g, s0, q.inum, k); }
    assert !SlotSame(s0, s, q.inum, k);
  }

  /** What a write put into an empty slot was free before. */
  lemma NewWasFree(g: Geometry, s0: Fs, s: Fs, i: int, lo: int, v: seq<Visit>, k: int)
    requires Ok(g, s0) && Ok(g, s) && Course(g, s0, s, i, lo, v) && 0 <= k < SLOTS
    requires SlotOf(s0.blocks, s0.inodes[i], k) == 0 && SlotOf(s.blocks, s.inodes[i], k) != 0
    ensures var b := SlotOf(s.blocks, s.inodes[i], k); g.nmeta <= b < g.size && !s0.used[b]
  {
    var b := SlotOf(s.blocks, s.inodes[i], k);
    SlotIsRef(g, s, i, k);
    if s0.used[b] {
      assert Referred(Refs(g, s0), b);
      var q :| q in Refs(g, s0) && Refs(g, s0)[q] == b;
      RefsAt(g, s0, q);
      hide Refs, Owned, SlotOf;
      assert SlotSame(s0, s, q.inum, q.slot);
      SlotsApart(g, s, i, k, q.inum, q.slot);
    }
  }

  /** Five free blocks, no two free blocks under the same bitmap block; bitmap and inode blocks are metadata. */
  ghost predicate Scattered(g: Geometry, used: seq<bool>, p: seq<int>, inode: int) {
    && |used| == g.size && |p| == 5 && FiveApart(p[0], p[1], p[2], p[3], p[4])
    && (forall k :: 0 <= k < 5 ==> g.nmeta <= p[k] < g.size && 0 <= p[k] && !used[p[k]])
    && (forall a, b {:trigger BitmapOf(g, a), BitmapOf(g, b)} ::
      g.nmeta <= a < b < g.size && 0 <= a && !used[a] && !used[b] ==> BitmapOf(g, a) != BitmapOf(g, b))
    && (forall b {:trigger BitmapOf(g, b)} :: g.nmeta <= b < g.size ==>
      BitmapOf(g, b) < g.nmeta && BitmapOf(g, b) != inode)
    && inode < g.nmeta
  }

  /** Four slots cannot use up five free blocks. */
  lemma NotFull(g: Geometry, s0: Fs, s: Fs, i: int, lo: int, v: seq<Visit>, p: seq<int>, inode: int)
    requires Ok(g, s0) && Ok(g, s) && Course(g, s0, s, i, lo, v) && Scattered(g, s0.used, p, inode)
    requires lo == 10 && |v| <= 3
    ensures !Full(g, s.used)
  {
    hide Owned, Refs, SlotOf;
    var a := SlotOf(s.blocks, s.inodes[i], 10);
    var b := SlotOf(s.blocks, s.inodes[i], 11);
    var c := SlotOf(s.blocks, s.inodes[i], 12);
    var d := SlotOf(s.blocks, s.inodes[i], 13);
    var k := FifthFree(p, a, b, c, d);
    if s.used[p[k]] { var l := WhereNew(g, s0, s, i, lo, v, p[k]); }
  }

  lemma FifthFree(p: seq<int>, a: int, b: int, c: int, d: int) returns (k: int)
    requires |p| == 5 && FiveApart(p[0], p[1], p[2], p[3], p[4])
    ensures 0 <= k < 5 && p[k] !in {a, b, c, d}
  {
    k := if p[0] !in {a, b, c, d} then 0 else if p[1] !in {a, b, c, d} then 1
      else if p[2] !in {a, b, c, d} then 2 else if p[3] !in {a, b, c, d} then 3 else 4;
  }

  /** What the rounds of that chunk are. */
  lemma TightVisits(g: Geometry, s0: Fs, s: Fs, i: int, v: seq<Visit>)
    requires FilesOk(g, s0) && Ok(g, s) && Course(g, s0, s, i, 10, v) && |v| == 4 && i in s0.inodes
    requires s0.inodes[i].size == 10241 && s0.inodes[i].addrs[11] == 0 && s0.inodes[i].addrs[12] == 0
    ensures i in s.inodes && |s.inodes[i].addrs| == 13
    ensures v == TightRounds(SlotOf(s.blocks, s.inodes[i], 10), SlotOf(s.blocks, s.inodes[i], 11),
      SlotOf(s.blocks, s.inodes[i], 13), SlotOf(s.blocks, s.inodes[i], 14))
    ensures SlotOf(s0.blocks, s0.inodes[i], 10) != 0 && SlotOf(s0.blocks, s0.inodes[i], 11) == 0
    ensures SlotOf(s0.blocks, s0.inodes[i], 12) == 0
    ensures SlotOf(s0.blocks, s0.inodes[i], 13) == 0 && SlotOf(s0.blocks, s0.inodes[i], 14) == 0
    ensures SlotOf(s.blocks, s.inodes[i], 10) != 0 && SlotOf(s.blocks, s.inodes[i], 11) != 0
    ensures SlotOf(s.blocks, s.inodes[i], 12) != 0
    ensures SlotOf(s.blocks, s.inodes[i], 13) != 0 && SlotOf(s.blocks, s.inodes[i], 14) != 0
  {
    hide Owned, Refs;
    assert BlockOf(s0, i, 10) != 0;
    assert VisitOk(s0, s, i, 10, v, 0) && VisitOk(s0, s, i, 10, v, 1);
    assert VisitOk(s0, s, i, 10, v, 2) && VisitOk(s0, s, i, 10, v, 3);
    HasIndirect(g, s, i, 12);
  }

  /**
    The bound of ChunkFits is reached: appending a chunk at 10241 to a file of that size, which
    needs its indirect block, on a disk whose free blocks are scattered.
   */
  method TightChunk(f: FileSystem, inum: int, data: seq<int>, ghost p: seq<int>)
    requires FilesOk(f.g, f.Now()) && inum in f.inodes && f.inodes[inum].size == 10241
    requires |data| == CHUNK && f.logged == {}
    requires |f.inodes[inum].addrs| == 13 && f.inodes[inum].addrs[11] == 0 && f.inodes[inum].addrs[12] == 0
    requires Scattered(f.g, f.used, p, inum / IPB + f.g.inodestart)
    modifies f
    ensures |f.logged| == MAXOPBLOCKS
  {
    hide Owned, Refs, SlotOf, OthersSame, Contents, NoHoles, Written, Course, RoundsLog, WriteLog, Scattered;
    ghost var s0, inode := f.Now(), inum / IPB + f.g.inodestart;
    var r; ghost var w, v, entry;
    r, w, v, entry := Writei(f, inum, 10241, data, |data|);
    ghost var s := f.Now();
    if r < |data| {
      NotFull(f.g, s0, s, inum, 10, v, p, inode);
    }
    assert r == |data|;
    TightVisits(f.g, s0, s, inum, v);
    TightBlocks(f.g, s0, s, inum, v, p, inode);
    assert v[2].isNew;
    assert f.logged == WriteLog(f.g, v, 0, f.inodes[inum].addrs[12], true, inode);
  }

  lemma TightBlocks(g: Geometry, s0: Fs, s: Fs, i: int, v: seq<Visit>, p: seq<int>, inode: int)
    requires FilesOk(g, s0) && Ok(g, s) && Course(g, s0, s, i, 10, v) && |v| == 4 && i in s0.inodes
    requires s0.inodes[i].size == 10241 && s0.inodes[i].addrs[11] == 0 && s0.inodes[i].addrs[12] == 0
    requires Scattered(g, s0.used, p, inode)
    ensures |WriteLog(g, v, 0, s.inodes[i].addrs[12], true, inode)| == MAXOPBLOCKS
  {
    hide Owned, Refs, SlotOf, NoHoles, Course, BitmapOf, WriteLog, TightRounds;
    TightVisits(g, s0, s, i, v);
    var a, b := SlotOf(s.blocks, s.inodes[i], 10), SlotOf(s.blocks, s.inodes[i], 11);
    var ind := SlotOf(s.blocks, s.inodes[i], 12);
    var c, d := SlotOf(s.blocks, s.inodes[i], 13), SlotOf(s.blocks, s.inodes[i], 14);
    SlotDirect(s.blocks, s.inodes[i], 12);
    assert FiveApart(a, b, c, d, ind) by { SlotsFive(g, s, i); }
    SlotIsRef(g, s, i, 10);
    NewWasFree(g, s0, s, i, 10, v, 11);
    NewWasFree(g, s0, s, i, 10, v, 12);
    NewWasFree(g, s0, s, i, 10, v, 13);
    NewWasFree(g, s0, s, i, 10, v, 14);
    assert FourApart(BitmapOf(g, b), BitmapOf(g, c), BitmapOf(g, d), BitmapOf(g, ind));
    Tight(g, a, b, c, d, ind, inode, g.nmeta);
  }

  lemma SlotsFive(g: Geometry, s: Fs, i: int)
    requires Ok(g, s) && i in s.inodes
    requires forall k :: 10 <= k <= 14 ==> SlotOf(s.blocks, s.inodes[i], k) != 0
    ensures FiveApart(SlotOf(s.blocks, s.inodes[i], 10), SlotOf(s.blocks, s.inodes[i], 11),
      SlotOf(s.blocks, s.inodes[i], 13), SlotOf(s.blocks, s.inodes[i], 14), SlotOf(s.blocks, s.inodes[i], 12))
  {
    hide Owned, Refs, SlotOf;
    forall k, l | 10 <= k < l <= 14 ensures SlotOf(s.blocks, s.inodes[i], k) != SlotOf(s.blocks, s.inodes[i], l) {
      SlotsDiffer(g, s, i, k, l);
    }
  }

  lemma SlotsDiffer(g: Geometry, s: Fs, i: int, k: int, l: int)
    requires Ok(g, s) && i in s.inodes && 0 <= k < l < SLOTS && SlotOf(s.blocks, s.inodes[i], k) != 0
    ensures SlotOf(s.blocks, s.inodes[i], k) != SlotOf(s.blocks, s.inodes[i], l)
  {
    hide Owned, Refs, SlotOf;
    if SlotOf(s.blocks, s.inodes[i], k) == SlotOf(s.blocks, s.inodes[i], l) { SlotsApart(g, s, i, k, i, l); }
  }

  // ---------------------------------------------------------------- a chunk over a hole

  /** Stores into the block of one round, on a file that may have holes. */
  method PutRound(f: FileSystem, inum: int, bn: int, addr: int, c: seq<int>, ghost s0: Fs, ghost lo: int,
      ghost log: set<int>, ghost v: seq<Visit>, ghost ind0: int, ghost entry: bool)
    requires Ok(f.g, f.Now()) && inum in f.inodes && 0 <= bn < MAXFILE
    requires addr == BlockOf(f.Now(), inum, bn) && addr != 0 && |c| == BSIZE
    requires Logs(f, inum, {addr}, log, v, ind0, entry) && Course(f.g, s0, f.Now(), inum, lo, v)
    modifies f`blocks, f`logged, f`peak
    ensures Ok(f.g, f.Now()) && Course(f.g, s0, f.Now(), inum, lo, v) && Logs(f, inum, {}, log, v, ind0, entry)
  {
    ghost var s := f.Now();
    PutKeepsSlots(f.g, s, inum, bn, c);
    PutKeepsCourse(f.g, s0, s, inum, lo, v, bn, c);
    hide Owned, Refs, SlotOf, BlockOf, Course, Peaked, PeakWith;
    f.blocks := f.blocks[addr := c];
    f.LogWrite(addr);
    assert f.Now() == Put(s, addr, c);
  }

  /** The loop of writei on a file that may have holes. */
  method HoleLoop(f: FileSystem, inum: int, off: int, data: seq<int>) returns (r: int, ghost v: seq<Visit>,
      ghost entry: bool)
    requires Ok(f.g, f.Now()) && inum in f.inodes && 0 <= off && off + |data| <= MAXFILE * BSIZE
    modifies f`blocks, f`used, f`inodes, f`logged, f`peak
    ensures Ok(f.g, f.Now()) && inum in f.inodes
    ensures Course(f.g, old(f.Now()), f.Now(), inum, off / BSIZE, v) && 0 <= r <= |data|
    ensures |old(f.inodes)[inum].addrs| == 13 && f.inodes[inum].size == old(f.inodes)[inum].size
    ensures Logs(f, inum, {}, old(f.logged), v, old(f.inodes)[inum].addrs[12], entry)
    ensures r == |data| ==> |v| == Span(off, |data|)
    ensures r < |data| ==> |v| < Span(off, |data|) && Full(f.g, f.used)
    ensures entry <==> EntryFilled(v, off / BSIZE)
  {
    hide Owned, Refs, SlotOf, Filled, OnlySlot, Patch, BlockOf, Logs, RoundsLog, Course;
    hide EntryFilled, Span, Full, Shape, Peaked;
    ghost var s0, log := f.Now(), f.logged;
    assert Span(off, 0) == 0 by { SpanNone(off); }
    ShapeInode(f.g, s0, inum);
    ghost var ind0 := f.inodes[inum].addrs[12];
    WholeLog(f, inum);
    CourseNone(f.g, s0, inum, off / BSIZE);
    v, entry := [], false;
    assert !EntryFilled(v, off / BSIZE) by { NoEntry(off / BSIZE); }
    r := 0;
    while r < |data|
      invariant 0 <= r <= |data| && Ok(f.g, f.Now()) && inum in f.inodes && f.inodes[inum].size == s0.inodes[inum].size
      invariant Logs(f, inum, {}, log, v, ind0, entry) && Course(f.g, s0, f.Now(), inum, off / BSIZE, v)
      invariant entry <==> EntryFilled(v, off / BSIZE)
      invariant |v| == Span(off, r) && (r < |data| ==> r == 0 || off + r == BSIZE * (off / BSIZE + |v|))
    {
      ghost var s, v0 := f.Now(), v;
      var m := if |data| - r < BSIZE - (off + r) % BSIZE then |data| - r else BSIZE - (off + r) % BSIZE;
      RoundArithmetic(off, r, |data|, m, |v|);
      var addr;
      addr, v, entry := MapRound(f, inum, (off + r) / BSIZE, log, v0, ind0, entry);
      FilledSize(f.g, s, f.Now(), inum);
      if addr == 0 {
        CourseFailed(f.g, s0, s, f.Now(), inum, off / BSIZE, v0);
        return r, v, entry;
      }
      CourseMapped(f.g, s0, s, f.Now(), inum, off / BSIZE, v0);
      EntryNext(v0, v[|v0|], off / BSIZE);
      MappedBlock(f.g, f.Now(), inum, (off + r) / BSIZE);
      PatchLength(f.blocks[addr], (off + r) % BSIZE, data[r..r + m]);
      var c := Patch(f.blocks[addr], (off + r) % BSIZE, data[r..r + m]);
      PutRound(f, inum, (off + r) / BSIZE, addr, c, s0, off / BSIZE, log, v, ind0, entry);
      r := r + m;
    }
  }

  lemma FilledSize(g: Geometry, s: Fs, s': Fs, i: int)
    requires Shape(g, s) && Shape(g, s') && Filled(g, s, s') && i in s.inodes
    ensures i in s'.inodes && s'.inodes[i].size == s.inodes[i].size
  {
  }

  lemma PatchLength(c: seq<int>, o: int, d: seq<int>)
    requires 0 <= o && o + |d| <= |c|
    ensures |Patch(c, o, d)| == |c|
  {
  }

  /** writei on a file that may have holes: the rounds it makes, and all that it logs. */
  method WriteOverHoles(f: FileSystem, inum: int, off: int, data: seq<int>) returns (r: int,
      ghost v: seq<Visit>, ghost entry: bool)
    requires Ok(f.g, f.Now()) && inum in f.inodes && 0 <= off <= f.inodes[inum].size && off + |data| <= MAXFILE * BSIZE
    modifies f`blocks, f`used, f`inodes, f`logged, f`peak
    ensures Ok(f.g, f.Now()) && Course(f.g, old(f.Now()), f.Now(), inum, off / BSIZE, v) && 0 <= r <= |data|
    ensures |old(f.inodes)[inum].addrs| == 13 && inum in f.inodes && |f.inodes[inum].addrs| == 13
    ensures var z := old(f.inodes)[inum].size; f.inodes[inum].size == if off + r > z then off + r else z
    ensures f.logged == old(f.logged) +
      WriteLog(f.g, v, old(f.inodes)[inum].addrs[12], f.inodes[inum].addrs[12], entry, inum / IPB + f.g.inodestart)
    ensures r == |data| ==> |v| == Span(off, |data|)
    ensures r < |data| ==> |v| < Span(off, |data|) && Full(f.g, f.used)
    ensures entry <==> EntryFilled(v, off / BSIZE)
  {
    hide Owned, Refs, SlotOf, Logs, RoundsLog, IndirectLog, Course, EntryFilled, Span, Full, BlockOf, Peaked, PeakWith;
    ghost var s0 := f.Now();
    r, v, entry := HoleLoop(f, inum, off, data);
    ghost var s := f.Now();
    LogsAre(f, inum, old(f.logged), v, s0.inodes[inum].addrs[12], entry);
    if off + r > f.inodes[inum].size {
      f.inodes := f.inodes[inum := f.inodes[inum].(size := off + r)];
    }
    SizeSlots(f.g, s, f.Now(), inum);
    SizeKeepsCourse(f.g, s0, s, f.Now(), inum, off / BSIZE, v);
    f.LogWrite(inum / IPB + f.g.inodestart);
  }

  lemma MappedBlock(g: Geometry, s: Fs, i: int, bn: int)
    requires Ok(g, s) && i in s.inodes && 0 <= bn < MAXFILE && BlockOf(s, i, bn) != 0
    ensures BlockOf(s, i, bn) in s.blocks && |s.blocks[BlockOf(s, i, bn)]| == BSIZE
  {
    hide Owned, Refs, SlotOf;
    SlotIsRef(g, s, i, DataSlot(bn));
  }

  /** What the rounds of a chunk over a hole are. */
  lemma HoleVisits(g: Geometry, s0: Fs, s: Fs, i: int, v: seq<Visit>)
    requires Ok(g, s0) && Ok(g, s) && Course(g, s0, s, i, 10, v) && |v| == 4 && i in s0.inodes
    requires s0.inodes[i].addrs[10] == 0 && s0.inodes[i].addrs[11] == 0 && s0.inodes[i].addrs[12] == 0
    ensures i in s.inodes && |s.inodes[i].addrs| == 13
    ensures v == HoleRounds(SlotOf(s.blocks, s.inodes[i], 10), SlotOf(s.blocks, s.inodes[i], 11),
      SlotOf(s.blocks, s.inodes[i], 13), SlotOf(s.blocks, s.inodes[i], 14))
    ensures forall k ::
      10 <= k <= 14 ==> SlotOf(s0.blocks, s0.inodes[i], k) == 0 && SlotOf(s.blocks, s.inodes[i], k) != 0
  {
    hide Owned, Refs;
    assert VisitOk(s0, s, i, 10, v, 0) && VisitOk(s0, s, i, 10, v, 1);
    assert VisitOk(s0, s, i, 10, v, 2) && VisitOk(s0, s, i, 10, v, 3);
    HasIndirect(g, s, i, 12);
  }

  lemma HoleBlocks(g: Geometry, s0: Fs, s: Fs, i: int, v: seq<Visit>, p: seq<int>, inode: int)
    requires Ok(g, s0) && Ok(g, s) && Course(g, s0, s, i, 10, v) && |v| == 4 && i in s0.inodes
    requires s0.inodes[i].addrs[10] == 0 && s0.inodes[i].addrs[11] == 0 && s0.inodes[i].addrs[12] == 0
    requires Scattered(g, s0.used, p, inode)
    ensures |WriteLog(g, v, 0, s.inodes[i].addrs[12], true, inode)| > MAXOPBLOCKS
  {
    hide Owned, Refs, SlotOf, Course, BitmapOf, WriteLog, HoleRounds;
    HoleVisits(g, s0, s, i, v);
    var a, b := SlotOf(s.blocks, s.inodes[i], 10), SlotOf(s.blocks, s.inodes[i], 11);
    var ind := SlotOf(s.blocks, s.inodes[i], 12);
    var c, d := SlotOf(s.blocks, s.inodes[i], 13), SlotOf(s.blocks, s.inodes[i], 14);
    SlotDirect(s.blocks, s.inodes[i], 12);
    assert FiveApart(a, b, c, d, ind) by { SlotsFive(g, s, i); }
    forall k | 10 <= k <= 14
      ensures var x := SlotOf(s.blocks, s.inodes[i], k); g.nmeta <= x < g.size && 0 <= x && !s0.used[x]
    {
      NewWasFree(g, s0, s, i, 10, v, k);
    }
    assert FourApart(BitmapOf(g, b), BitmapOf(g, c), BitmapOf(g, d), BitmapOf(g, ind));
    HoleTooMany(g, a, b, c, d, ind, inode, g.nmeta);
  }

  /**
    Without the rule that files have no holes, the bound would fail: a chunk written at 10241 into
    a file of that size whose eleventh block is missing logs more than MAXOPBLOCKS blocks.
   */
  method HoleChunk(f: FileSystem, inum: int, data: seq<int>, ghost p: seq<int>)
    requires Ok(f.g, f.Now()) && inum in f.inodes && f.inodes[inum].size == 10241 && |data| == CHUNK && f.logged == {}
    requires |f.inodes[inum].addrs| == 13
    requires f.inodes[inum].addrs[10] == 0 && f.inodes[inum].addrs[11] == 0 && f.inodes[inum].addrs[12] == 0
    requires Scattered(f.g, f.used, p, inum / IPB + f.g.inodestart)
    modifies f`blocks, f`used, f`inodes, f`logged, f`peak
    ensures |f.logged| > MAXOPBLOCKS
  {
    hide Owned, Refs, SlotOf, Course, RoundsLog, WriteLog, Scattered;
    ghost var s0, inode := f.Now(), inum / IPB + f.g.inodestart;
    var r; ghost var v, entry;
    r, v, entry := WriteOverHoles(f, inum, 10241, data);
    if r < |data| { NotFull(f.g, s0, f.Now(), inum, 10, v, p, inode); }
    HoleVisits(f.g, s0, f.Now(), inum, v);
    HoleBlocks(f.g, s0, f.Now(), inum, v, p, inode);
    assert v[2].isNew;
    assert f.logged == WriteLog(f.g, v, 0, f.inodes[inum].addrs[12], true, inode);
  }
}
