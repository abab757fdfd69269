/**
  readi and writei (fs.c) as operations on the bytes of a file, and the loop of filewrite
  (file.c) that splits a write into transactions.
 */
module FileIo {
  import opened Params
  import opened FsState
  import opened FsCode
  import opened WriteBudget

  const CHUNK := 3072                  // ((MAXOPBLOCKS - 1 - 1 - 2) / 2) * BSIZE

  /** How many bytes readi offers: unsigned 32-bit addition may wrap. */
  function Readable(size: int, off: int, n: int): int {
    if off > size || (off + n) % 0x1_0000_0000 < off then 0 else if off + n > size then size - off else n
  }

  /**
    readi: that part of the file, or -1 if the destination takes only good bytes and that is
    not enough.  Reading allocates nothing and logs nothing.
   */
  method Readi(f: FileSystem, inum: int, off: int, n: int, good: nat) returns (r: int, data: seq<int>)
    requires FilesOk(f.g, f.Now()) && inum in f.inodes && 0 <= off < 0x1_0000_0000 && 0 <= n < 0x1_0000_0000
    modifies f`blocks, f`used, f`inodes, f`logged, f`peak
    ensures f.Now() == old(f.Now()) && f.logged == old(f.logged)
    ensures var m := Readable(f.inodes[inum].size, off, n);
      if m > good then r == -1
      else r == m && (m > 0 ==> off + m <= f.inodes[inum].size && data == Contents(f.Now(), inum)[off..off + m])
  {
    hide Owned, Refs, NoHoles, Contents;
    ghost var s := f.Now();
    ShapeInode(f.g, s, inum);
    FileLength(s, inum);
    data := [];
    var size := f.inodes[inum].size;
    if off > size || (off + n) % 0x1_0000_0000 < off { return 0, []; }
    var m := if off + n > size then size - off else n;
    var tot, o := 0, off;
    while tot < m
      invariant 0 <= tot <= m && o == off + tot && |data| == tot && tot <= good
      invariant f.Now() == s && f.logged == old(f.logged)
      invariant data == Contents(s, inum)[off..off + tot]
    {
      var k := if m - tot < BSIZE - o % BSIZE then m - tot else BSIZE - o % BSIZE;
      var part := ReadRound(f, inum, o, k);
      if tot + k > good { return -1, data; }
      SliceMore(Contents(s, inum), off, o, o + k);
      data := data + part;
      tot := tot + k;
      o := o + k;
    }
    r := tot;
  }

  /** One round of readi's loop: k bytes at o, within one block. */
  method ReadRound(f: FileSystem, inum: int, o: int, k: int) returns (part: seq<int>)
    requires FilesOk(f.g, f.Now()) && inum in f.inodes && InodeOk(f.inodes[inum])
    requires 0 <= o && 0 < k && o + k <= f.inodes[inum].size && o % BSIZE + k <= BSIZE
    modifies f`blocks, f`used, f`inodes, f`logged, f`peak
    ensures f.Now() == old(f.Now()) && f.logged == old(f.logged) && part == Contents(f.Now(), inum)[o..o + k]
  {
    hide Owned, Refs, SlotOf, ByteAt, BlockOf, Filled, OnlySlot, Contents, NewLog, Peaked, Full, Tracked;
    ghost var s := f.Now();
    assert NoHoles(s, inum) && BlockOf(s, inum, o / BSIZE) != 0;
    var addr := f.Bmap(inum, o / BSIZE);
    FileLength(s, inum);
    BlockSlice(f.g, s, inum, o, k);
    part := f.blocks[addr][o % BSIZE..o % BSIZE + k];
  }

  lemma SliceMore(s: seq<int>, i: int, j: int, k: int)
    requires 0 <= i <= j <= k <= |s|
    ensures s[i..j] + s[j..k] == s[i..k]
  {
  }

  lemma BlockBytes(g: Geometry, s: Fs, i: int, bn: int)
    requires Ok(g, s) && i in s.inodes && |s.inodes[i].addrs| == 13 && 0 <= bn < MAXFILE && BlockOf(s, i, bn) != 0
    ensures BlockOf(s, i, bn) in s.blocks && |s.blocks[BlockOf(s, i, bn)]| == BSIZE
  {
    SlotIsRef(g, s, i, DataSlot(bn));
  }

  /** k bytes within one block. */
  lemma BlockSlice(g: Geometry, s: Fs, i: int, o: int, k: int)
    requires Ok(g, s) && i in s.inodes && InodeOk(s.inodes[i]) && 0 <= o
    requires 0 < k && o + k <= s.inodes[i].size && o % BSIZE + k <= BSIZE
    requires BlockOf(s, i, o / BSIZE) != 0
    ensures BlockOf(s, i, o / BSIZE) in s.blocks && |s.blocks[BlockOf(s, i, o / BSIZE)]| == BSIZE
    ensures s.blocks[BlockOf(s, i, o / BSIZE)][o % BSIZE..o % BSIZE + k] == Contents(s, i)[o..o + k]
  {
    BlockBytes(g, s, i, o / BSIZE);
    hide Owned, Refs, SlotOf, BlockOf;
    var part, file := s.blocks[BlockOf(s, i, o / BSIZE)][o % BSIZE..o % BSIZE + k], Contents(s, i)[o..o + k];
    forall a | 0 <= a < k ensures part[a] == file[a] {
      assert (o + a) / BSIZE == o / BSIZE && (o + a) % BSIZE == o % BSIZE + a;
    }
  }

  // ---------------------------------------------------------------- writing

  /** The errors writei reports before it starts. */
  predicate Refused(size: int, off: int, n: int) {
    off > size || (off + n) % 0x1_0000_0000 < off || off + n > MAXFILE * BSIZE
  }

  /** Old bytes with data laid over them at off, extending the file if need be. */
  function Overlaid(file: seq<int>, off: int, data: seq<int>): seq<int>
    requires 0 <= off <= |file|
  {
    file[..off] + data + if off + |data| <= |file| then file[off + |data|..] else []
  }

  /** What the file system has logged, and will have once x is logged too, is what the rounds v account for. */
  ghost predicate Logs(f: FileSystem, inum: int, x: set<int>, log: set<int>, v: seq<Visit>, ind0: int, entry: bool)
    reads f
  {
    && inum in f.inodes && |f.inodes[inum].addrs| == 13
    && f.logged + x == log + RoundsLog(f.g, v) + IndirectLog(f.g, ind0, f.inodes[inum].addrs[12], entry)
    && (entry ==> f.inodes[inum].addrs[12] != 0) && (ind0 != 0 ==> f.inodes[inum].addrs[12] == ind0)
  }

  /** A round of writei's loop maps block bn of the file; the block itself is logged when it has been written. */
  method MapRound(f: FileSystem, inum: int, bn: int, ghost log: set<int>, ghost v: seq<Visit>, ghost ind0: int,
      ghost entry: bool)
      returns (addr: int, ghost v': seq<Visit>, ghost entry': bool)
    requires Ok(f.g, f.Now()) && inum in f.inodes && 0 <= bn < MAXFILE && Logs(f, inum, {}, log, v, ind0, entry)
    modifies f`blocks, f`used, f`inodes, f`logged, f`peak
    ensures Ok(f.g, f.Now()) && Filled(f.g, old(f.Now()), f.Now())
    ensures OnlySlot(f.g, old(f.Now()), f.Now(), inum, DataSlot(bn))
    ensures inum in f.inodes && addr == BlockOf(f.Now(), inum, bn) && (addr == 0 ==> Full(f.g, f.used))
    ensures v' == if addr == 0 then v else v + [Visit(addr, BlockOf(old(f.Now()), inum, bn) == 0)]
    ensures Logs(f, inum, if addr == 0 then {} else {addr}, log, v', ind0, entry')
    ensures entry' <==> entry || (bn >= NDIRECT && addr != 0 && BlockOf(old(f.Now()), inum, bn) == 0)
    ensures Peaked(old(f.peak), old(f.logged), f.peak, f.logged)
    ensures Tracked(f.g, old(f.Now()), f.Now(), f.logged, {inum})
  {
    hide Owned, Refs, SlotOf, Filled, OnlySlot, Peaked, Tracked;
    ghost var s := f.Now();
    addr := f.Bmap(inum, bn);
    KeptIndirect(f.g, s, f.Now(), inum);
    HasIndirect(f.g, f.Now(), inum, bn);
    v', entry' := v, entry || (bn >= NDIRECT && addr != 0 && BlockOf(s, inum, bn) == 0);
    if addr != 0 {
      v' := v + [Visit(addr, BlockOf(s, inum, bn) == 0)];
      NextRound(f.g, v, Visit(addr, BlockOf(s, inum, bn) == 0));
    }
  }

  /** A block in the indirect range needs the indirect block. */
  lemma HasIndirect(g: Geometry, s: Fs, i: int, bn: int)
    requires Shape(g, s) && i in s.inodes && 0 <= bn < MAXFILE
    ensures |s.inodes[i].addrs| == 13 && (bn >= NDIRECT && BlockOf(s, i, bn) != 0 ==> s.inodes[i].addrs[12] != 0)
  {
  }

  lemma KeptIndirect(g: Geometry, s: Fs, s': Fs, i: int)
    requires Shape(g, s) && Shape(g, s') && Filled(g, s, s') && i in s.inodes
    ensures i in s'.inodes && |s.inodes[i].addrs| == 13 && |s'.inodes[i].addrs| == 13
    ensures s.inodes[i].addrs[12] != 0 ==> s'.inodes[i].addrs[12] == s.inodes[i].addrs[12]
  {
    SlotDirect(s.blocks, s.inodes[i], 12);
    SlotDirect(s'.blocks, s'.inodes[i], 12);
  }

  /** What writei leaves behind, in terms of bytes: r of them count, w >= r have been stored. */
  ghost predicate Written(s: Fs, s': Fs, i: int, off: int, data: seq<int>, r: int, w: int)
    requires i in s.inodes && InodeOk(s.inodes[i]) && i in s'.inodes
    requires InodeOk(s'.inodes[i]) && 0 <= off <= s.inodes[i].size && 0 <= w <= |data|
  {
    && s'.inodes[i].size == Max(s.inodes[i].size, off + r)
    && (forall a :: 0 <= a < s'.inodes[i].size ==>
      (off <= a < off + w || a < s.inodes[i].size) &&
      Contents(s', i)[a] == if off <= a < off + w then data[a - off] else Contents(s, i)[a])
  }

  /** When all bytes count, the file is the old one with data laid over it. */
  lemma WrittenAll(s: Fs, s': Fs, i: int, off: int, data: seq<int>)
    requires i in s.inodes && InodeOk(s.inodes[i]) && i in s'.inodes
    requires InodeOk(s'.inodes[i]) && 0 <= off <= s.inodes[i].size
    requires Written(s, s', i, off, data, |data|, |data|)
    ensures Contents(s', i) == Overlaid(Contents(s, i), off, data)
  {
    hide ByteAt;
    var a, b := Contents(s', i), Overlaid(Contents(s, i), off, data);
    assert |a| == |b|;
    forall k | 0 <= k < |a| ensures a[k] == b[k] {}
  }

  /** Store p bytes of data, from tot on, in the block of this round, and log it. */
  method StoreRound(f: FileSystem, inum: int, off: int, data: seq<int>, tot: int, m: int, p: int, addr: int,
      ghost s0: Fs, ghost log: set<int>, ghost v: seq<Visit>, ghost ind0: int, ghost entry: bool)
    requires Writing(f.g, s0, f.Now(), inum, off, data, tot, tot) && OthersSame(f.g, s0, f.Now(), inum)
    requires 0 <= p <= m && tot + m <= |data| && m > 0 && (off + tot) % BSIZE + m <= BSIZE
    requires addr == BlockOf(f.Now(), inum, (off + tot) / BSIZE) && addr != 0
    requires Logs(f, inum, {addr}, log, v, ind0, entry) && Course(f.g, s0, f.Now(), inum, off / BSIZE, v)
    modifies f`blocks, f`logged, f`peak
    ensures Writing(f.g, s0, f.Now(), inum, off, data, if p == m then tot + m else tot, tot + p)
    ensures OthersSame(f.g, s0, f.Now(), inum) && Course(f.g, s0, f.Now(), inum, off / BSIZE, v)
    ensures Logs(f, inum, {}, log, v, ind0, entry) && Peaked(old(f.peak), old(f.logged), f.peak, f.logged)
    ensures Tracked(f.g, old(f.Now()), f.Now(), f.logged, {inum})
  {
    ghost var s := f.Now();
    WritingPut(f.g, s0, s, inum, off, data, tot, m, p);
    PutKeepsCourse(f.g, s0, s, inum, off / BSIZE, v, (off + tot) / BSIZE,
      Patch(f.blocks[addr], (off + tot) % BSIZE, data[tot..tot + p]));
    TrackedSelf(f.g, s, f.logged, {inum});
    hide Owned, Refs, SlotOf, Contents, NoHoles, ByteAt, Patch, BlockOf, Writing, Course, Peaked, PeakWith, Tracked;
    ghost var log0 := f.logged;
    f.blocks := f.blocks[addr := Patch(f.blocks[addr], (off + tot) % BSIZE, data[tot..tot + p])];
    TrackedBlock(f.g, s, s, f.Now(), log0, addr, {inum});
    f.LogWrite(addr);
    assert f.Now() == Put(s, addr, f.blocks[addr]);
  }

  lemma PutKeepsCourse(g: Geometry, s0: Fs, s: Fs, i: int, lo: int, v: seq<Visit>, bn: int, c: seq<int>)
    requires Course(g, s0, s, i, lo, v) && Ok(g, s) && 0 <= bn < MAXFILE && BlockOf(s, i, bn) != 0 && |c| == BSIZE
    ensures Course(g, s0, Put(s, BlockOf(s, i, bn), c), i, lo, v)
  {
    PutKeepsSlots(g, s, i, bn, c);
    hide Course, Owned, Refs, SlotOf;
    CourseSame(g, s0, s, Put(s, BlockOf(s, i, bn), c), i, lo, v);
  }

  /** How many file blocks n bytes at off touch. */
  function Span(off: int, n: int): int {
    if n == 0 then 0 else (off + n - 1) / BSIZE - off / BSIZE + 1
  }

  lemma SpanNone(off: int)
    ensures Span(off, 0) == 0
  {
  }

  /** Where a round of writei stands, and where it leaves off. */
  lemma RoundArithmetic(off: int, tot: int, total: int, m: int, len: int)
    requires 0 <= off && 0 <= tot < total && len == Span(off, tot)
    requires (tot == 0 || off + tot == BSIZE * (off / BSIZE + len))
    requires m == if total - tot < BSIZE - (off + tot) % BSIZE then total - tot else BSIZE - (off + tot) % BSIZE
    ensures (off + tot) / BSIZE == off / BSIZE + len && 0 < m && (off + tot) % BSIZE + m <= BSIZE
    ensures Span(off, tot + m) == len + 1 <= Span(off, total)
    ensures tot + m < total ==> off + tot + m == BSIZE * (off / BSIZE + len + 1)
    ensures total <= CHUNK ==> len + 1 <= if off % BSIZE == 0 then 3 else 4
  {
  }

  /** The size of the round of readi or writei at file offset o, with left bytes to go. */
  function Step(o: int, left: int): int {
    if left < BSIZE - o % BSIZE then left else BSIZE - o % BSIZE
  }

  /** The file has no block for offset o, and the disk has none to give. */
  ghost predicate NoBlock(f: FileSystem, inum: int, o: int)
    reads f
  {
    && Full(f.g, f.used) && inum in f.inodes && |f.inodes[inum].addrs| == 13
    && 0 <= o / BSIZE < MAXFILE && BlockOf(f.Now(), inum, o / BSIZE) == 0
  }

  /** Why a write of len bytes at off counts only r, and has stored w: no block, or a bad source in this round. */
  ghost predicate Stopped(f: FileSystem, inum: int, off: int, len: int, r: int, w: int, good: nat)
    reads f
  {
    (w == r && NoBlock(f, inum, off + r)) || (w == good && r <= good < r + Step(off + r, len - r))
  }

  /** The loop of writei: r bytes count, in the rounds v, which are all rounds unless it stopped early. */
  method WriteLoop(f: FileSystem, inum: int, off: int, data: seq<int>, good: nat)
      returns (r: int, ghost w: nat, ghost v: seq<Visit>, ghost entry: bool)
    requires FilesOk(f.g, f.Now()) && inum in f.inodes && 0 <= off <= f.inodes[inum].size
    requires off + |data| <= MAXFILE * BSIZE
    modifies f`blocks, f`used, f`inodes, f`logged, f`peak
    ensures Writing(f.g, old(f.Now()), f.Now(), inum, off, data, r, w) && OthersSame(f.g, old(f.Now()), f.Now(), inum)
    ensures r < |data| ==> Full(f.g, f.used) || good < |data|
    ensures r <= good && (r < |data| ==> Stopped(f, inum, off, |data|, r, w, good))
    ensures r == |data| ==> w == |data| && |v| == Span(off, |data|)
    ensures Course(f.g, old(f.Now()), f.Now(), inum, off / BSIZE, v) && |old(f.inodes)[inum].addrs| == 13
    ensures Logs(f, inum, {}, old(f.logged), v, old(f.inodes)[inum].addrs[12], entry)
    ensures r < |data| && good >= |data| ==> |v| < Span(off, |data|) && BlockOf(f.Now(), inum, off / BSIZE + |v|) == 0
    ensures |data| <= CHUNK ==> ChunkShape(off, v)
    ensures entry <==> EntryFilled(v, off / BSIZE)
    ensures Peaked(old(f.peak), old(f.logged), f.peak, f.logged)
    ensures Tracked(f.g, old(f.Now()), f.Now(), f.logged, {inum})
  {
    hide Owned, Refs, SlotOf, Filled, OnlySlot, NoHoles, Patch, BlockOf, Writing, OthersSame, Logs, RoundsLog, Course;
    hide EntryFilled, Span, Shape, Peaked, PeakWith, Tracked, Full, NoBlock;
    ghost var s0, log := f.Now(), f.logged;
    assert Span(off, 0) == 0 by { SpanNone(off); }
    ShapeInode(f.g, s0, inum);
    ghost var ind0 := f.inodes[inum].addrs[12];
    WholeLog(f, inum);
    StartWriting(f.g, s0, inum, off, data);
    CourseNone(f.g, s0, inum, off / BSIZE);
    var tot, o := 0, off;
    r, w, v, entry := 0, 0, [], false;
    PeakedSelf(f.peak, f.logged);
    TrackedSelf(f.g, s0, f.logged, {inum});
    assert !EntryFilled(v, off / BSIZE) by { NoEntry(off / BSIZE); }
    while tot < |data|
      invariant 0 <= tot <= |data| && o == off + tot && tot <= good && inum in f.inodes
      invariant InLoop(f, inum, off, data, tot, tot, s0, log, old(f.peak), v, ind0, entry) && |v| == Span(off, tot)
      invariant tot < |data| ==> tot == 0 || o == BSIZE * (off / BSIZE + |v|)
    {
      var m := if |data| - tot < BSIZE - o % BSIZE then |data| - tot else BSIZE - o % BSIZE;
      var more;
      more, w, v, entry := WriteRound(f, inum, off, data, tot, m, good, s0, log, old(f.peak), v, ind0, entry);
      if !more { return tot, w, v, entry; }
      tot := tot + m;
      o := o + m;
    }
    r, w := tot, tot;
  }

  /** What the loop of writei keeps: tot bytes count, w are stored, in the rounds v. */
  ghost predicate InLoop(f: FileSystem, inum: int, off: int, data: seq<int>, tot: int, w: int,
      s0: Fs, log: set<int>, peak: nat, v: seq<Visit>, ind0: int, entry: bool)
    reads f
  {
    && FilesOk(f.g, s0) && Shape(f.g, f.Now()) && inum in f.inodes
    && Writing(f.g, s0, f.Now(), inum, off, data, tot, w) && OthersSame(f.g, s0, f.Now(), inum)
    && Logs(f, inum, {}, log, v, ind0, entry) && Course(f.g, s0, f.Now(), inum, off / BSIZE, v)
    && (entry <==> EntryFilled(v, off / BSIZE)) && (|data| <= CHUNK ==> ChunkShape(off, v))
    && Peaked(peak, log, f.peak, f.logged) && Tracked(f.g, s0, f.Now(), f.logged, {inum})
  }

  /** One round of writei's loop: m bytes from tot on, unless the disk is full or the source fails. */
  method WriteRound(f: FileSystem, inum: int, off: int, data: seq<int>, tot: int, m: int, good: nat,
      ghost s0: Fs, ghost log: set<int>, ghost peak: nat, ghost v0: seq<Visit>, ghost ind0: int, ghost entry0: bool)
      returns (more: bool, ghost w: nat, ghost v: seq<Visit>, ghost entry: bool)
    requires 0 <= tot < |data| && tot <= good && |v0| == Span(off, tot)
    requires tot == 0 || off + tot == BSIZE * (off / BSIZE + |v0|)
    requires m == if |data| - tot < BSIZE - (off + tot) % BSIZE then |data| - tot else BSIZE - (off + tot) % BSIZE
    requires InLoop(f, inum, off, data, tot, tot, s0, log, peak, v0, ind0, entry0)
    modifies f`blocks, f`used, f`inodes, f`logged, f`peak
    ensures inum in f.inodes && |f.inodes[inum].addrs| == 13 && 0 <= off
    ensures 0 < m <= |data| - tot
    ensures InLoop(f, inum, off, data, if more then tot + m else tot, w, s0, log, peak, v, ind0, entry)
    ensures more ==> tot + m <= good && w == tot + m && |v| == Span(off, tot + m)
    ensures more && tot + m < |data| ==> off + tot + m == BSIZE * (off / BSIZE + |v|)
    ensures !more ==> (Full(f.g, f.used) || good < |data|) && Stopped(f, inum, off, |data|, tot, w, good)
    ensures !more && good >= |data| ==>
      |v| < Span(off, |data|) && 0 <= off / BSIZE + |v| < MAXFILE && BlockOf(f.Now(), inum, off / BSIZE + |v|) == 0
  {
    hide Owned, Refs, SlotOf, Filled, OnlySlot, NoHoles, Patch, BlockOf, Writing, OthersSame, Logs, RoundsLog, Course;
    hide EntryFilled, Span, Shape, Peaked, PeakWith, Tracked, Full;
    ghost var s, peak0, log0 := f.Now(), f.peak, f.logged;
    WritingFacts(f.g, s0, s, inum, off, data, tot, tot);
    RoundArithmetic(off, tot, |data|, m, |v0|);
    if v0 == [] && off % BSIZE != 0 { FirstBlock(f.g, s0, s, inum, off, data); }
    var addr;
    addr, v, entry := MapRound(f, inum, (off + tot) / BSIZE, log, v0, ind0, entry0);
    PeakedTwice(peak, log, peak0, log0, f.peak, f.logged);
    StillLogged(peak0, log0, f.peak, f.logged);
    TrackedTwice(f.g, s0, s, f.Now(), log0, f.logged, {inum});
    WritingFilled(f.g, s0, s, f.Now(), inum, off, data, tot);
    OthersFilled(f.g, s0, s, f.Now(), inum);
    WritingFacts(f.g, s0, f.Now(), inum, off, data, tot, tot);
    if addr == 0 {
      CourseFailed(f.g, s0, s, f.Now(), inum, off / BSIZE, v0);
      w := tot;
      return false, w, v, entry;
    }
    CourseMapped(f.g, s0, s, f.Now(), inum, off / BSIZE, v0);
    EntryNext(v0, v[|v0|], off / BSIZE);
    more := tot + m <= good;
    w := if more then tot + m else good;
    StoreLogged(f, inum, off, data, tot, m, if more then m else good - tot, addr, s0, log, peak, v, ind0, entry);
    WritingFacts(f.g, s0, f.Now(), inum, off, data, if more then tot + m else tot, w);
  }

  /** StoreRound, with what the whole operation has logged. */
  method StoreLogged(f: FileSystem, inum: int, off: int, data: seq<int>, tot: int, m: int, p: int, addr: int,
      ghost s0: Fs, ghost log: set<int>, ghost peak: nat, ghost v: seq<Visit>, ghost ind0: int, ghost entry: bool)
    requires Writing(f.g, s0, f.Now(), inum, off, data, tot, tot) && Shape(f.g, s0) && Shape(f.g, f.Now())
    requires OthersSame(f.g, s0, f.Now(), inum) && 0 <= off && inum in f.inodes && |f.inodes[inum].addrs| == 13
    requires 0 <= p <= m && 0 <= tot && tot + m <= |data| && m > 0 && (off + tot) % BSIZE + m <= BSIZE
    requires (off + tot) / BSIZE < MAXFILE && addr == BlockOf(f.Now(), inum, (off + tot) / BSIZE) && addr != 0
    requires Logs(f, inum, {addr}, log, v, ind0, entry) && Course(f.g, s0, f.Now(), inum, off / BSIZE, v)
    requires Peaked(peak, log, f.peak, f.logged) && Tracked(f.g, s0, f.Now(), f.logged, {inum})
    modifies f`blocks, f`logged, f`peak
    ensures Shape(f.g, f.Now()) && Writing(f.g, s0, f.Now(), inum, off, data, if p == m then tot + m else tot, tot + p)
    ensures OthersSame(f.g, s0, f.Now(), inum) && Course(f.g, s0, f.Now(), inum, off / BSIZE, v)
    ensures Logs(f, inum, {}, log, v, ind0, entry)
    ensures Peaked(peak, log, f.peak, f.logged) && Tracked(f.g, s0, f.Now(), f.logged, {inum})
  {
    hide Owned, Refs, SlotOf, NoHoles, Patch, BlockOf, Writing, OthersSame, Logs, Course, Peaked, Tracked;
    ghost var s1, peak1, log1 := f.Now(), f.peak, f.logged;
    StoreRound(f, inum, off, data, tot, m, p, addr, s0, log, v, ind0, entry);
    PeakedTwice(peak, log, peak1, log1, f.peak, f.logged);
    StillLogged(peak1, log1, f.peak, f.logged);
    TrackedTwice(f.g, s0, s1, f.Now(), log1, f.logged, {inum});
    WritingFacts(f.g, s0, f.Now(), inum, off, data, if p == m then tot + m else tot, tot + p);
  }

  /** Some round filled an entry of the indirect block. */
  ghost predicate EntryFilled(v: seq<Visit>, lo: int) {
    exists n :: 0 <= n < |v| && v[n].isNew && lo + n >= NDIRECT
  }

  lemma NoEntry(lo: int)
    ensures !EntryFilled([], lo)
  {
  }

  lemma EntryNext(v: seq<Visit>, e: Visit, lo: int)
    ensures EntryFilled(v + [e], lo) <==> EntryFilled(v, lo) || (e.isNew && lo + |v| >= NDIRECT)
  {
    var v' := v + [e];
    if EntryFilled(v, lo) {
      var n :| 0 <= n < |v| && v[n].isNew && lo + n >= NDIRECT;
      assert v'[n].isNew;
    }
    if e.isNew && lo + |v| >= NDIRECT { assert v'[|v|].isNew; }
  }

  lemma WritingFacts(g: Geometry, s0: Fs, s: Fs, i: int, off: int, data: seq<int>, tot: int, w: int)
    requires Writing(g, s0, s, i, off, data, tot, w)
    ensures Ok(g, s) && i in s.inodes && |s.inodes[i].addrs| == 13 && 0 <= off && off + |data| <= MAXFILE * BSIZE
  {
    hide Owned, Refs;
  }

  lemma WholeLog(f: FileSystem, inum: int)
    requires Shape(f.g, f.Now()) && inum in f.inodes
    ensures |f.inodes[inum].addrs| == 13 && Logs(f, inum, {}, f.logged, [], f.inodes[inum].addrs[12], false)
  {
    ShapeInode(f.g, f.Now(), inum);
  }

  lemma StartWriting(g: Geometry, s: Fs, i: int, off: int, data: seq<int>)
    requires FilesOk(g, s) && i in s.inodes && 0 <= off <= s.inodes[i].size && off + |data| <= MAXFILE * BSIZE
    ensures Writing(g, s, s, i, off, data, 0, 0) && OthersSame(g, s, s, i)
  {
    hide SlotOf, Owned, Refs;
  }

  /** A write that starts inside a block starts in a block the file already has. */
  lemma FirstBlock(g: Geometry, s0: Fs, s: Fs, i: int, off: int, data: seq<int>)
    requires Writing(g, s0, s, i, off, data, 0, 0) && off % BSIZE != 0 && |data| > 0
    ensures BlockOf(s, i, off / BSIZE) != 0
  {
    hide SlotOf, Owned, Refs, ByteAt;
    assert off / BSIZE * BSIZE < off;
  }

  /** Setting the size at the end of writei turns the stored bytes into the file. */
  lemma SizeSet(g: Geometry, s0: Fs, s: Fs, s': Fs, i: int, off: int, data: seq<int>, r: int, w: int)
    requires Writing(g, s0, s, i, off, data, r, w) && OthersSame(g, s0, s, i)
    requires s' == s.(inodes := s.inodes[i := s.inodes[i].(size := Max(s.inodes[i].size, off + r))])
    ensures FilesOk(g, s') && OthersSame(g, s0, s', i)
    ensures i in s'.inodes && InodeOk(s0.inodes[i]) && InodeOk(s'.inodes[i]) && Written(s0, s', i, off, data, r, w)
  {
    SizeSlots(g, s, s', i);
    hide SlotOf, Owned, Refs;
    assert forall bn :: 0 <= bn < MAXFILE ==> BlockOf(s', i, bn) == BlockOf(s, i, bn);
    assert NoHoles(s', i);
    forall a | 0 <= a < s'.inodes[i].size ensures ByteAt(s', i, a) == ByteAt(s, i, a) {}
    forall j | j in s.inodes && j != i ensures Contents(s', j) == Contents(s, j) && (NoHoles(s, j) ==> NoHoles(s', j)) {
      SameFile(g, s, s', j);
    }
    WrittenBytes(g, s0, s, s', i, off, data, r, w);
  }

  lemma SizeSlots(g: Geometry, s: Fs, s': Fs, i: int)
    requires Ok(g, s) && i in s.inodes && s'.blocks == s.blocks && s'.used == s.used
    requires i in s'.inodes && InodeOk(s'.inodes[i])
    requires s'.inodes == s.inodes[i := s.inodes[i].(size := s'.inodes[i].size)]
    ensures Ok(g, s')
    ensures forall j, k :: j in s.inodes && 0 <= k < SLOTS ==>
      SlotOf(s'.blocks, s'.inodes[j], k) == SlotOf(s.blocks, s.inodes[j], k)
  {
    assert Shape(g, s');
    assert Refs(g, s') == Refs(g, s) by {
      forall q: Ref
        ensures q in Refs(g, s') <==> q in Refs(g, s) ensures q in Refs(g, s') ==> Refs(g, s')[q] == Refs(g, s)[q]
      {
        RefsAt(g, s, q);
        RefsAt(g, s', q);
      }
    }
  }

  lemma SameFile(g: Geometry, s: Fs, s': Fs, j: int)
    requires j in s.inodes && j in s'.inodes && s'.inodes[j] == s.inodes[j]
    requires s'.blocks == s.blocks && InodeOk(s.inodes[j])
    ensures Contents(s', j) == Contents(s, j) && (NoHoles(s, j) ==> NoHoles(s', j))
  {
    assert forall bn :: 0 <= bn < MAXFILE ==> BlockOf(s', j, bn) == BlockOf(s, j, bn);
  }

  lemma WrittenBytes(g: Geometry, s0: Fs, s: Fs, s': Fs, i: int, off: int, data: seq<int>, r: int, w: int)
    requires Writing(g, s0, s, i, off, data, r, w) && i in s'.inodes && InodeOk(s'.inodes[i])
    requires s'.inodes[i].size == Max(s0.inodes[i].size, off + r)
    requires forall a :: 0 <= a < s'.inodes[i].size ==> ByteAt(s', i, a) == ByteAt(s, i, a)
    ensures Written(s0, s', i, off, data, r, w)
  {
    hide SlotOf, Owned, Refs, ByteAt, BlockOf;
    forall a | 0 <= a < s'.inodes[i].size
      ensures off <= a < off + w || a < s0.inodes[i].size
      ensures Contents(s', i)[a] == if off <= a < off + w then data[a - off] else Contents(s0, i)[a]
    {
      assert ByteWritten(s0, s, i, off, data, w, a);
    }
  }

  /**
    writei: refused, or the file is the old one with the stored bytes laid over it at off;
    all of data, unless the disk filled up or the source gave only good bytes.  Other files
    do not change.  A chunk of filewrite logs at most MAXOPBLOCKS blocks.
   */
  method Writei(f: FileSystem, inum: int, off: int, data: seq<int>, good: nat)
      returns (r: int, ghost w: nat, ghost v: seq<Visit>, ghost entry: bool)
    requires FilesOk(f.g, f.Now()) && inum in f.inodes && 0 <= off < 0x1_0000_0000 && |data| < 0x1_0000_0000
    modifies f`blocks, f`used, f`inodes, f`logged, f`peak
    ensures FilesOk(f.g, f.Now()) && inum in f.inodes && inum in old(f.inodes)
    ensures OthersSame(f.g, old(f.Now()), f.Now(), inum)
    ensures r == -1 <==> Refused(old(f.inodes)[inum].size, off, |data|)
    ensures r == -1 ==> f.Now() == old(f.Now()) && f.logged == old(f.logged)
    ensures r != -1 ==> 0 <= r <= w <= |data| && Written(old(f.Now()), f.Now(), inum, off, data, r, w)
    ensures r != -1 && r < |data| ==> Full(f.g, f.used) || good < |data|
    ensures r != -1 ==> r <= good && (r < |data| ==> Stopped(f, inum, off, |data|, r, w, good))
    ensures r == |data| ==> Contents(f.Now(), inum) == Overlaid(Contents(old(f.Now()), inum), off, data)
    ensures r != -1 ==> Rounds(f, old(f.Now()), old(f.logged), inum, off, data, r, good, v, entry)
    ensures |data| <= CHUNK ==> |f.logged| <= |old(f.logged)| + MAXOPBLOCKS
    ensures |data| <= CHUNK ==> f.peak <= Max(old(f.peak), |old(f.logged)| + MAXOPBLOCKS - 1)
    ensures Tracked(f.g, old(f.Now()), f.Now(), f.logged, {})
  {
    hide Owned, Refs, SlotOf, Filled, NoHoles, BlockOf, Writing, OthersSame, Logs;
    hide Contents, RoundsLog, Course, EntryFilled, WriteLog;
    hide IndirectLog, Peaked, PeakWith, Tracked, Full;
    ghost var s0, log := f.Now(), f.logged;
    WholeLog(f, inum);
    TrackedSelf(f.g, s0, f.logged, {});
    w, v, entry := 0, [], false;
    if off > f.inodes[inum].size || (off + |data|) % 0x1_0000_0000 < off {
      StartOthers(f.g, s0, inum);
      return -1, w, v, entry;
    }
    if off + |data| > MAXFILE * BSIZE {
      StartOthers(f.g, s0, inum);
      return -1, w, v, entry;
    }
    r, w, v, entry := WriteLoop(f, inum, off, data, good);
    ghost var s := f.Now();
    WritingSize(f.g, s0, s, inum, off, data, r, w);
    ghost var peak1, log1 := f.peak, f.logged;
    EndWrite(f, inum, off, data, r, s0, log, w, v, entry);
    SameBlocks(f.g, s, f.Now(), inum);
    if r == |data| { WrittenAll(s0, f.Now(), inum, off, data); }
    if |data| <= CHUNK {
      ghost var ind0, ind, inode := s0.inodes[inum].addrs[12], f.inodes[inum].addrs[12], inum / IPB + f.g.inodestart;
      ChunkFits(f.g, off, v, ind0, ind, entry, inode);
      UnionCount(log, WriteLog(f.g, v, ind0, ind, entry, inode));
      LastPeak(old(f.peak), log, peak1, log1, f.peak, RoundsLog(f.g, v) + IndirectLog(f.g, ind0, ind, entry));
    }
  }

  /** The last log_write of an operation finds at most what was there and the blocks x. */
  lemma LastPeak(peak: nat, log: set<int>, peak1: nat, log1: set<int>, peak2: nat, x: set<int>)
    requires Peaked(peak, log, peak1, log1) && log1 == log + x && peak2 == PeakWith(peak1, log1) && |x| < MAXOPBLOCKS
    ensures peak2 <= Max(peak, |log| + MAXOPBLOCKS - 1)
  {
    UnionCount(log, x);
  }

  /** The end of writei: the new size, and iupdate. */
  method EndWrite(f: FileSystem, inum: int, off: int, data: seq<int>, r: int,
      ghost s0: Fs, ghost log: set<int>, ghost w: nat, ghost v: seq<Visit>, ghost entry: bool)
    requires Writing(f.g, s0, f.Now(), inum, off, data, r, w)
    requires OthersSame(f.g, s0, f.Now(), inum) && |s0.inodes[inum].addrs| == 13
    requires Course(f.g, s0, f.Now(), inum, off / BSIZE, v)
    requires Logs(f, inum, {}, log, v, s0.inodes[inum].addrs[12], entry)
    requires Tracked(f.g, s0, f.Now(), f.logged, {inum})
    modifies f`inodes, f`logged, f`peak
    ensures FilesOk(f.g, f.Now()) && OthersSame(f.g, s0, f.Now(), inum)
    ensures Course(f.g, s0, f.Now(), inum, off / BSIZE, v)
    ensures inum in f.inodes && inum in s0.inodes && InodeOk(s0.inodes[inum]) && InodeOk(f.inodes[inum])
    ensures 0 <= off <= s0.inodes[inum].size && w <= |data| && Written(s0, f.Now(), inum, off, data, r, w)
    ensures f.inodes == old(f.inodes)[inum := f.inodes[inum]] && f.inodes[inum].addrs == old(f.inodes)[inum].addrs
    ensures f.logged == log +
      WriteLog(f.g, v, s0.inodes[inum].addrs[12], f.inodes[inum].addrs[12], entry, inum / IPB + f.g.inodestart)
    ensures f.peak == PeakWith(old(f.peak), old(f.logged)) && Tracked(f.g, s0, f.Now(), f.logged, {})
    ensures old(f.logged) == log +
      (RoundsLog(f.g, v) + IndirectLog(f.g, s0.inodes[inum].addrs[12], f.inodes[inum].addrs[12], entry))
  {
    hide Owned, Refs, SlotOf, Filled, NoHoles, BlockOf, Writing, OthersSame, Logs, Contents, RoundsLog, Course;
    hide Peaked, PeakWith, Tracked;
    ghost var s := f.Now();
    WritingFacts(f.g, s0, s, inum, off, data, r, w);
    WritingSize(f.g, s0, s, inum, off, data, r, w);
    LogsAre(f, inum, log, v, s0.inodes[inum].addrs[12], entry);
    if off + r > f.inodes[inum].size {
      f.inodes := f.inodes[inum := f.inodes[inum].(size := off + r)];
    }
    assert f.Now() == s.(inodes := s.inodes[inum := s.inodes[inum].(size := Max(s.inodes[inum].size, off + r))]);
    SizeSet(f.g, s0, s, f.Now(), inum, off, data, r, w);
    SizeKeepsCourse(f.g, s0, s, f.Now(), inum, off / BSIZE, v);
    TrackedInode(f.g, s0, s, f.Now(), f.logged, inum);
    f.LogWrite(InodeBlock(f.g, inum));
  }

  /** The size of a file has no bearing on where its blocks are. */
  lemma SameBlocks(g: Geometry, s: Fs, s': Fs, i: int)
    requires i in s.inodes && |s.inodes[i].addrs| == 13 && i in s'.inodes
    requires s'.inodes[i].addrs == s.inodes[i].addrs && s'.blocks == s.blocks
    ensures forall bn :: 0 <= bn < MAXFILE ==> BlockOf(s', i, bn) == BlockOf(s, i, bn)
  {
  }

  lemma WritingSize(g: Geometry, s0: Fs, s: Fs, i: int, off: int, data: seq<int>, r: int, w: int)
    requires Writing(g, s0, s, i, off, data, r, w)
    ensures 0 <= r <= w <= |data| && i in s.inodes && i in s0.inodes && s.inodes[i].size == s0.inodes[i].size
    ensures InodeOk(s0.inodes[i]) && 0 <= off <= s0.inodes[i].size
  {
    hide Owned, Refs;
  }

  /** The rounds of a writei, and exactly what it logged. */
  ghost predicate Rounds(f: FileSystem, s0: Fs, log: set<int>, inum: int, off: int, data: seq<int>, r: int, good: nat,
      v: seq<Visit>, entry: bool)
    reads f
  {
    && Course(f.g, s0, f.Now(), inum, off / BSIZE, v) && inum in f.inodes && |f.inodes[inum].addrs| == 13
    && f.logged == log +
      WriteLog(f.g, v, s0.inodes[inum].addrs[12], f.inodes[inum].addrs[12], entry, inum / IPB + f.g.inodestart)
    && (r == |data| ==> |v| == Span(off, |data|))
    && (r < |data| && good >= |data| ==> |v| < Span(off, |data|))
    && (r < |data| && good >= |data| && off / BSIZE + |v| < MAXFILE ==> BlockOf(f.Now(), inum, off / BSIZE + |v|) == 0)
    && (entry <==> EntryFilled(v, off / BSIZE))
  }

  lemma LogsAre(f: FileSystem, inum: int, log: set<int>, v: seq<Visit>, ind0: int, entry: bool)
    requires Logs(f, inum, {}, log, v, ind0, entry)
    ensures inum in f.inodes && |f.inodes[inum].addrs| == 13
    ensures f.logged == log + RoundsLog(f.g, v) + IndirectLog(f.g, ind0, f.inodes[inum].addrs[12], entry)
  {
  }

  lemma SizeKeepsCourse(g: Geometry, s0: Fs, s: Fs, s': Fs, i: int, lo: int, v: seq<Visit>)
    requires Course(g, s0, s, i, lo, v) && Ok(g, s) && i in s.inodes && s'.blocks == s.blocks && s'.used == s.used
    requires i in s'.inodes && InodeOk(s'.inodes[i])
    requires s'.inodes == s.inodes[i := s.inodes[i].(size := s'.inodes[i].size)]
    ensures Course(g, s0, s', i, lo, v)
    ensures 0 <= lo && lo + |v| <= MAXFILE && |s.inodes[i].addrs| == 13 && s'.inodes[i].addrs == s.inodes[i].addrs
    ensures forall bn :: 0 <= bn < MAXFILE ==> BlockOf(s', i, bn) == BlockOf(s, i, bn)
  {
    SizeSlots(g, s, s', i);
    hide Owned, Refs, SlotOf;
    CourseSame(g, s0, s, s', i, lo, v);
  }

  lemma StartOthers(g: Geometry, s: Fs, i: int)
    requires FilesOk(g, s)
    ensures OthersSame(g, s, s, i)
  {
    hide Owned, Refs, SlotOf;
  }

  // ---------------------------------------------------------------- filewrite

  /** Two writes one after the other are one write. */
  lemma OverlaidTwice(file: seq<int>, off: int, a: seq<int>, b: seq<int>)
    requires 0 <= off <= |file|
    ensures off + |a| <= |Overlaid(file, off, a)|
    ensures Overlaid(Overlaid(file, off, a), off + |a|, b) == Overlaid(file, off, a + b)
  {
  }

  lemma OthersTwice(g: Geometry, s0: Fs, s1: Fs, s2: Fs, i: int)
    requires FilesOk(g, s0) && FilesOk(g, s1) && FilesOk(g, s2) && OthersSame(g, s0, s1, i) && OthersSame(g, s1, s2, i)
    ensures OthersSame(g, s0, s2, i)
  {
    hide Owned, Refs, SlotOf, Contents, NoHoles;
  }

  /** However many bytes of a write count, the file is the old one with some of data laid over it. */
  lemma WrittenPart(s: Fs, s': Fs, i: int, off: int, data: seq<int>, r: int, w: int) returns (n: int)
    requires i in s.inodes && InodeOk(s.inodes[i]) && i in s'.inodes
    requires InodeOk(s'.inodes[i]) && 0 <= off <= s.inodes[i].size
    requires 0 <= r <= w <= |data| && Written(s, s', i, off, data, r, w)
    ensures r <= n <= w && Contents(s', i) == Overlaid(Contents(s, i), off, data[..n])
  {
    hide ByteAt;
    n := if off + w <= s'.inodes[i].size then w else s'.inodes[i].size - off;
    var a, b := Contents(s', i), Overlaid(Contents(s, i), off, data[..n]);
    assert |a| == |b|;
    forall k | 0 <= k < |a| ensures a[k] == b[k] {}
  }

  /** The operations from number n on kept to the budget, at every log_write and in all. */
  ghost predicate InBudget(history: seq<Operation>, n: int) {
    forall k :: 0 <= n <= k < |history| ==> history[k].peak < MAXOPBLOCKS && |history[k].logged| <= MAXOPBLOCKS
  }

  /**
    The operations from number n on took the disk from s0 to s, one after the other: each kept
    the files in order, and logged every block it changed.
   */
  ghost predicate Traced(g: Geometry, history: seq<Operation>, n: int, s0: Fs, s: Fs)
    requires 0 <= n
  {
    if |history| <= n then s == s0
    else
      var o := history[|history| - 1];
      && o.after == s && FilesOk(g, o.before) && FilesOk(g, o.after) && Tracked(g, o.before, o.after, o.logged, {})
      && Traced(g, history[..|history| - 1], n, s0, o.before)
  }

  lemma TracedNext(g: Geometry, history: seq<Operation>, n: int, s0: Fs, o: Operation)
    requires 0 <= n <= |history| && Traced(g, history, n, s0, o.before)
    requires FilesOk(g, o.before) && FilesOk(g, o.after) && Tracked(g, o.before, o.after, o.logged, {})
    ensures Traced(g, history + [o], n, s0, o.after)
  {
    hide FilesOk, Tracked;
    assert (history + [o])[..|history|] == history;
  }

  /** The file is what it was with the first n bytes of data laid over it at off. */
  ghost predicate Laid(s0: Fs, s: Fs, i: int, off: int, data: seq<int>, n: int) {
    && i in s0.inodes && InodeOk(s0.inodes[i]) && i in s.inodes && InodeOk(s.inodes[i]) && 0 <= off <= s0.inodes[i].size
    && 0 <= n <= |data| && Contents(s, i) == Overlaid(Contents(s0, i), off, data[..n])
  }

  /**
    Why filewrite fails, its offset then t bytes on: there was nowhere to begin, the next chunk would
    not fit into a file, there is no block for the next byte, or the source is bad within a block of it.
   */
  ghost predicate MayFail(f: FileSystem, inum: int, size: int, off: int, len: int, good: nat, t: int)
    reads f
  {
    || off > size
    || (0 <= t < len && t % CHUNK == 0 && off + t + (if len - t < CHUNK then len - t else CHUNK) > MAXFILE * BSIZE)
    || NoBlock(f, inum, off + t)
    || (t <= good < len && good < t + BSIZE)
  }

  /**
    filewrite on a file: begin_op, one chunk, end_op, again and again.  Either the whole of
    data is in the file, or an error is reported and some n bytes of it are, at least as many as
    the offset moved by.  No operation is too big for the log, and none of its log_writes finds
    its budget used up.
   */
  method FileWrite(f: FileSystem, inum: int, off: int, data: seq<int>, good: nat) returns (ret: int, off': int,
      ghost n: int)
    requires FilesOk(f.g, f.Now()) && inum in f.inodes && 0 <= off < 0x1_0000_0000 && |data| < 0x8000_0000
    modifies f
    ensures FilesOk(f.g, f.Now()) && inum in f.inodes && inum in old(f.inodes)
    ensures OthersSame(f.g, old(f.Now()), f.Now(), inum)
    ensures ret == |data| || ret == -1
    ensures ret == |data| && data != [] ==> off <= old(f.inodes)[inum].size && n == |data|
    ensures off <= old(f.inodes)[inum].size ==> Laid(old(f.Now()), f.Now(), inum, off, data, n)
    ensures off > old(f.inodes)[inum].size ==> f.Now() == old(f.Now())
    ensures off <= off' <= off + n && (ret == |data| ==> off' == off + |data|)
    ensures ret == -1 ==> MayFail(f, inum, old(f.inodes)[inum].size, off, |data|, good, off' - off)
    ensures |old(f.history)| <= |f.history| && f.history[..|old(f.history)|] == old(f.history)
    ensures InBudget(f.history, |old(f.history)|) && Traced(f.g, f.history, |old(f.history)|, old(f.Now()), f.Now())
    ensures ret == |data| ==> |f.history| == |old(f.history)| + (|data| + CHUNK - 1) / CHUNK
  {
    hide Shape, Owned, Refs, NoHoles, OthersSame, Laid, Full, InBudget, MayFail, Tracked, Traced;
    ghost var s0, h := f.Now(), f.history;
    StartOthers(f.g, s0, inum);
    LaidNone(f.g, s0, inum, off, data);
    NoneInBudget(f.g, f.history, s0);
    var i := 0;
    off', n := off, 0;
    while i < |data|
      invariant 0 <= i <= |data| && i <= good && off' == off + i && n == i && (i < |data| ==> i % CHUNK == 0)
      invariant FilesOk(f.g, f.Now()) && inum in f.inodes && OthersSame(f.g, s0, f.Now(), inum)
      invariant (i == 0 ==> f.Now() == s0) && (i > 0 ==> off <= s0.inodes[inum].size)
      invariant off <= s0.inodes[inum].size ==> Laid(s0, f.Now(), inum, off, data, i)
      invariant |f.history| == |h| + (i + CHUNK - 1) / CHUNK && f.history[..|h|] == h && InBudget(f.history, |h|)
      invariant Traced(f.g, f.history, |h|, s0, f.Now())
    {
      ghost var h1 := f.history;
      var n1 := if |data| - i > CHUNK then CHUNK else |data| - i;
      var r;
      r, n := WriteChunk(f, inum, off', data, i, n1, good, s0, off);
      NextInBudget(f.history, |h|);
      TracedNext(f.g, h1, |h|, s0, f.history[|h1|]);
      if r > 0 { off' := off' + r; }
      if r != n1 { break; }
      i := i + r;
    }
    ret := if i == |data| then |data| else -1;
  }

  /** One turn of filewrite's loop: an operation that writes n1 bytes of data from i on. */
  method WriteChunk(f: FileSystem, inum: int, off': int, data: seq<int>, i: int, n1: int, good: nat,
      ghost s0: Fs, ghost off: int)
      returns (r: int, ghost n: int)
    requires FilesOk(f.g, f.Now()) && inum in f.inodes && FilesOk(f.g, s0)
    requires inum in s0.inodes && OthersSame(f.g, s0, f.Now(), inum)
    requires 0 <= i <= good && i % CHUNK == 0 && i < |data| && off' == off + i
    requires n1 == if |data| - i > CHUNK then CHUNK else |data| - i
    requires 0 <= off < 0x1_0000_0000 && |data| < 0x8000_0000
    requires (i == 0 ==> f.Now() == s0) && (i > 0 ==> off <= s0.inodes[inum].size)
    requires off <= s0.inodes[inum].size ==> Laid(s0, f.Now(), inum, off, data, i)
    modifies f
    ensures FilesOk(f.g, f.Now()) && inum in f.inodes && OthersSame(f.g, s0, f.Now(), inum)
    ensures -1 <= r <= n1 && i <= n && i + r <= n <= i + n1 && (r == n1 ==> n == i + n1)
    ensures if off <= s0.inodes[inum].size then Laid(s0, f.Now(), inum, off, data, n)
      else r == -1 && f.Now() == old(f.Now()) && n == i
    ensures r <= good - i
    ensures r < n1 ==> MayFail(f, inum, s0.inodes[inum].size, off, |data|, good, if r > 0 then i + r else i)
    ensures f.history == old(f.history) + [Operation(f.logged, f.peak, old(f.Now()), f.Now())]
    ensures |f.logged| <= MAXOPBLOCKS && f.peak < MAXOPBLOCKS && Tracked(f.g, old(f.Now()), f.Now(), f.logged, {})
  {
    hide Owned, Refs, SlotOf, NoHoles, Contents, OthersSame, Written, Overlaid, Rounds, Laid, Full, BlockOf, Tracked;
    ghost var s := f.Now();
    FileInode(f.g, s0, inum);
    FileInode(f.g, s, inum);
    WithinFile(s0, s, inum, off, data, i);
    f.BeginOp();
    var left := good - i;
    ghost var w, v, entry;
    r, w, v, entry := Writei(f, inum, off', data[i..i + n1], left);
    f.EndOp();
    FileInode(f.g, f.Now(), inum);
    OthersTwice(f.g, s0, s, f.Now(), inum);
    n := i;
    if r != -1 { n := Laying(s0, s, f.Now(), inum, off, data, i, n1, r, w); }
    WhyFailed(s0, s, inum, off, data, i, n1, r);
  }

  /** Once something is written, the offset is inside the file. */
  lemma WithinFile(s0: Fs, s: Fs, inum: int, off: int, data: seq<int>, i: int)
    requires inum in s0.inodes && inum in s.inodes && 0 <= off < 0x1_0000_0000
    requires |data| < 0x8000_0000 && 0 <= i <= |data|
    requires i > 0 ==> Laid(s0, s, inum, off, data, i)
    ensures off + i < 0x1_0000_0000
  {
    if i > 0 { FileLength(s, inum); }
  }

  /** A chunk that falls short is a reason for filewrite to fail. */
  lemma WhyFailed(s0: Fs, s: Fs, inum: int, off: int, data: seq<int>, i: int, n1: int, r: int)
    requires inum in s0.inodes && inum in s.inodes && 0 <= i && 0 < n1
    requires i + n1 <= |data| && 0 <= off < 0x1_0000_0000 && |data| < 0x8000_0000
    requires (i == 0 ==> s == s0) && (off <= s0.inodes[inum].size ==> Laid(s0, s, inum, off, data, i))
    requires r == -1 ==> Refused(s.inodes[inum].size, off + i, n1)
    ensures r == -1 ==> off > s0.inodes[inum].size || off + i + n1 > MAXFILE * BSIZE
  {
    if off <= s0.inodes[inum].size { FileLength(s, inum); }
  }

  lemma FileInode(g: Geometry, s: Fs, i: int)
    requires FilesOk(g, s) && i in s.inodes
    ensures InodeOk(s.inodes[i])
  {
    hide Owned, Refs, SlotOf;
  }

  lemma LaidNone(g: Geometry, s: Fs, i: int, off: int, data: seq<int>)
    requires FilesOk(g, s) && i in s.inodes && 0 <= off
    ensures off <= s.inodes[i].size ==> Laid(s, s, i, off, data, 0)
  {
    hide Owned, Refs, SlotOf;
  }

  lemma NoneInBudget(g: Geometry, history: seq<Operation>, s: Fs)
    ensures InBudget(history, |history|) && Traced(g, history, |history|, s, s)
  {
  }

  lemma NextInBudget(history: seq<Operation>, n: int)
    requires 0 <= n < |history| && InBudget(history[..|history| - 1], n)
    requires history[|history| - 1].peak < MAXOPBLOCKS && |history[|history| - 1].logged| <= MAXOPBLOCKS
    ensures InBudget(history, n)
  {
    var h := history[..|history| - 1];
    assert forall k :: 0 <= k < |h| ==> h[k] == history[k];
  }

  lemma Pieces(data: seq<int>, i: int, n1: int, m: int)
    requires 0 <= i && 0 <= m <= n1 && i + n1 <= |data|
    ensures data[i..i + n1][..m] == data[i..i + m] && data[..i] + data[i..i + m] == data[..i + m]
    ensures i == 0 ==> data[..i] == []
  {
  }

  lemma OverlaidNone(file: seq<int>, off: int)
    requires 0 <= off <= |file|
    ensures Overlaid(file, off, []) == file
  {
  }

  /** One chunk more: n bytes are laid now, i + r of which count. */
  lemma Laying(s0: Fs, s: Fs, s': Fs, inum: int, off: int, data: seq<int>, i: int, n1: int, r: int,
      w: int) returns (n: int)
    requires inum in s0.inodes && InodeOk(s0.inodes[inum]) && inum in s.inodes
    requires InodeOk(s.inodes[inum]) && inum in s'.inodes && InodeOk(s'.inodes[inum])
    requires 0 <= i && 0 < n1 && i + n1 <= |data| && 0 <= off && off + i <= s.inodes[inum].size
    requires 0 <= r <= w <= n1 && Written(s, s', inum, off + i, data[i..i + n1], r, w)
    requires (i == 0 ==> s == s0) && (i > 0 ==> off <= s0.inodes[inum].size)
    requires off <= s0.inodes[inum].size ==> Laid(s0, s, inum, off, data, i)
    ensures i + r <= n <= i + n1 && (r == n1 ==> n == i + n1) && Laid(s0, s', inum, off, data, n)
  {
    hide Contents, Written;
    var d := data[i..i + n1];
    var m := WrittenPart(s, s', inum, off + i, d, r, w);
    n := i + m;
    FileLength(s0, inum);
    hide Overlaid;
    Pieces(data, i, n1, m);
    OverlaidTwice(Contents(s0, inum), off, data[..i], data[i..n]);
    if i == 0 { OverlaidNone(Contents(s0, inum), off); }
  }

  lemma FileLength(s: Fs, i: int)
    requires i in s.inodes && InodeOk(s.inodes[i])
    ensures |Contents(s, i)| == s.inodes[i].size
  {
  }
}
