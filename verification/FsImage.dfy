/**
  The file system as it lies on disk (fs.h): data blocks, bitmap blocks and inode blocks of 256
  words each, and the state of FsState that they hold.

  An operation works on that state, and on the in-memory copy of an inode; the disk follows only
  in the blocks passed to log_write.  Since those are all the blocks that changed, the disk holds
  the new state as soon as they hold it.
 */
module FsImage {
  import opened Blocks
  import opened FsState
  import opened FsCode

  type Image = map<int, Block>

  function BlockAt(m: Image, b: int): Block {
    if b in m then m[b] else ZeroBlock()
  }

  // ---------------------------------------------------------------- words, bytes, bits

  function UintOf(w: int): int {
    w % 0x1_0000_0000
  }

  /** Byte k of a little-endian word. */
  function ByteOf(w: int, k: int): int {
    if k == 0 then w % 0x100 else if k == 1 then w / 0x100 % 0x100
    else if k == 2 then w / 0x1_0000 % 0x100 else w / 0x100_0000 % 0x100
  }

  function BytesOf(c: Block): (r: seq<int>)
    ensures |r| == BSIZE
  {
    seq(1024, x requires 0 <= x < 1024 => ByteOf(c[x / 4], x % 4))
  }

  function Power(k: int): int {
    if k == 0 then 1 else if k == 1 then 2 else if k == 2 then 4 else if k == 3 then 8
    else if k == 4 then 16 else if k == 5 then 32 else if k == 6 then 64 else 128
  }

  /** Bit b % 8 of byte b / 8 of the bitmap. */
  ghost predicate Marked(g: Geometry, m: Image, b: int)
    requires 0 <= b
  {
    BytesOf(BlockAt(m, BitmapOf(g, b)))[b % BPB / 8] / Power(b % 8) % 2 == 1
  }

  /** struct dinode: 16 words, of which the third is the size and the last 13 are addresses. */
  ghost function InodeAt(g: Geometry, m: Image, i: int): (ip: Inode)
    requires 0 <= i
    ensures |ip.addrs| == 13
  {
    var c, at := BlockAt(m, InodeBlock(g, i)), i % IPB * 16;
    Inode(seq(13, k requires 0 <= k < 13 => UintOf(c[at + 3 + k])), UintOf(c[at + 2]))
  }

  // ---------------------------------------------------------------- the state on disk

  /** What a disk with inodes 1 to n - 1 says. */
  ghost function StateOf(g: Geometry, n: int, m: Image): Fs
    requires 0 <= g.size
  {
    Fs(map b | 0 <= b < g.size :: BytesOf(BlockAt(m, b)),
       seq(g.size, b requires 0 <= b < g.size => Marked(g, m, b)),
       map i | 1 <= i < n :: InodeAt(g, m, i))
  }

  /** The state has a content for every block, a mark for every block, and every inode. */
  ghost predicate Whole(g: Geometry, n: int, s: Fs) {
    && |s.used| == g.size && (forall i :: i in s.inodes <==> 1 <= i < n)
    && (forall b :: 0 <= b < g.size ==> b in s.blocks && |s.blocks[b]| == BSIZE)
  }

  /** Block b of the disk holds its part of s. */
  ghost predicate BlockHolds(g: Geometry, n: int, m: Image, s: Fs, b: int)
    requires Whole(g, n, s) && 0 <= g.nmeta
  {
    && (g.nmeta <= b < g.size ==> s.blocks[b] == BytesOf(BlockAt(m, b)))
    && (forall c {:trigger Marked(g, m, c)} :: 0 <= c < g.size && BitmapOf(g, c) == b ==>
      (s.used[c] <==> Marked(g, m, c)))
    && (forall i {:trigger InodeAt(g, m, i)} :: 1 <= i < n && InodeBlock(g, i) == b ==> s.inodes[i] == InodeAt(g, m, i))
  }

  ghost predicate Holds(g: Geometry, n: int, m: Image, s: Fs) {
    && Whole(g, n, s) && 0 <= g.nmeta
    && (forall b {:trigger BlockHolds(g, n, m, s, b)} :: BlockHolds(g, n, m, s, b))
  }

  lemma HoldsItsState(g: Geometry, n: int, m: Image)
    requires 0 <= g.nmeta && 0 <= g.size
    ensures Holds(g, n, m, StateOf(g, n, m))
  {
    hide Marked, InodeAt, BytesOf;
  }

  /** The same state, but for the contents of metadata blocks, which FsState keeps elsewhere. */
  ghost predicate Agree(g: Geometry, s: Fs, t: Fs) {
    && s.used == t.used && s.inodes == t.inodes
    && (forall b :: g.nmeta <= b < g.size ==> b in s.blocks && b in t.blocks && s.blocks[b] == t.blocks[b])
  }

  lemma SameHolder(g: Geometry, n: int, m: Image, s: Fs, t: Fs)
    requires Holds(g, n, m, s) && Holds(g, n, m, t)
    ensures Agree(g, s, t)
  {
    hide Marked, InodeAt, BytesOf;
    forall b | 0 <= b < g.size ensures s.used[b] == t.used[b] {
      assert BlockHolds(g, n, m, s, BitmapOf(g, b)) && BlockHolds(g, n, m, t, BitmapOf(g, b));
      assert Marked(g, m, b) || !Marked(g, m, b);
    }
    forall i | 1 <= i < n ensures s.inodes[i] == t.inodes[i] {
      assert BlockHolds(g, n, m, s, InodeBlock(g, i)) && BlockHolds(g, n, m, t, InodeBlock(g, i));
      assert InodeAt(g, m, i) == InodeAt(g, m, i);
    }
    forall b | g.nmeta <= b < g.size ensures s.blocks[b] == t.blocks[b] {
      assert BlockHolds(g, n, m, s, b) && BlockHolds(g, n, m, t, b);
    }
  }

  // ---------------------------------------------------------------- files in order

  lemma AgreeSlot(g: Geometry, s: Fs, t: Fs, i: int, k: int)
    requires Ok(g, s) && Agree(g, s, t) && Shape(g, t) && i in s.inodes && 0 <= k < SLOTS
    ensures SlotOf(t.blocks, t.inodes[i], k) == SlotOf(s.blocks, s.inodes[i], k)
  {
    hide Refs, Owned;
    ShapeInode(g, s, i);
    if s.inodes[i].addrs[12] != 0 { IndirectBlock(g, s, i); }
  }

  lemma AgreeRef(g: Geometry, s: Fs, t: Fs, q: Ref)
    requires Ok(g, s) && Agree(g, s, t) && Shape(g, t)
    ensures q in Refs(g, t) <==> q in Refs(g, s)
    ensures q in Refs(g, s) ==> q in Refs(g, t) && Refs(g, t)[q] == Refs(g, s)[q]
  {
    RefsAt(g, s, q);
    RefsAt(g, t, q);
    hide Refs, SlotOf, Owned;
    if q.inum in s.inodes && 0 <= q.slot < SLOTS { AgreeSlot(g, s, t, q.inum, q.slot); }
  }

  lemma AgreeOk(g: Geometry, s: Fs, t: Fs)
    requires Ok(g, s) && Agree(g, s, t) && Shape(g, t)
    ensures Ok(g, t)
  {
    hide Refs, Owned, SlotOf;
    var a, c := Refs(g, t), Refs(g, s);
    forall q: Ref ensures (q in a <==> q in c) && (q in c ==> q in a && a[q] == c[q]) { AgreeRef(g, s, t, q); }
    assert a == c;
  }

  /** Whether the files are in order does not depend on the contents of metadata blocks. */
  lemma AgreeFiles(g: Geometry, s: Fs, t: Fs)
    requires FilesOk(g, s) && Agree(g, s, t) && Shape(g, t)
    ensures FilesOk(g, t)
  {
    AgreeOk(g, s, t);
    hide Refs, Owned, SlotOf;
    forall i | i in t.inodes ensures NoHoles(t, i) {
      assert NoHoles(s, i);
      forall bn | 0 <= bn < MAXFILE
        ensures BlockOf(t, i, bn) == BlockOf(s, i, bn)
      {
        AgreeSlot(g, s, t, i, DataSlot(bn));
      }
    }
  }

  /** The files on this disk are in order. */
  ghost predicate Sound(g: Geometry, n: int, m: Image) {
    0 <= g.size && FilesOk(g, StateOf(g, n, m))
  }

  /** A disk that holds s is sound just if s is in order. */
  lemma SoundIfOk(g: Geometry, n: int, m: Image, s: Fs)
    requires Holds(g, n, m, s)
    ensures Sound(g, n, m) <==> FilesOk(g, s)
  {
    assert |s.used| == g.size;
    HoldsItsState(g, n, m);
    SameHolder(g, n, m, s, StateOf(g, n, m));
    ShapesAgree(g, n, s, StateOf(g, n, m));
    ShapesAgree(g, n, StateOf(g, n, m), s);
    hide Holds, StateOf, Agree, Whole, Owned, Refs, SlotOf;
    assert Agree(g, StateOf(g, n, m), s) by { SameHolder(g, n, m, StateOf(g, n, m), s); }
    if Sound(g, n, m) { AgreeFiles(g, StateOf(g, n, m), s); }
    if FilesOk(g, s) { AgreeFiles(g, s, StateOf(g, n, m)); }
  }

  lemma ShapesAgree(g: Geometry, n: int, s: Fs, t: Fs)
    requires Whole(g, n, s) && Whole(g, n, t) && Agree(g, s, t)
    ensures Shape(g, s) ==> Shape(g, t)
  {
  }

  // ---------------------------------------------------------------- operations

  /**
    An operation took the disk from m to m': it worked on the state s that m holds, turned it into
    s', passed every block it changed to log_write, and left those blocks holding s'.
   */
  ghost predicate Carried(g: Geometry, n: int, m: Image, s: Fs, m': Image, s': Fs, logged: set<int>) {
    && Holds(g, n, m, s) && Whole(g, n, s') && Tracked(g, s, s', logged, {})
    && (forall b :: b !in logged ==> BlockAt(m', b) == BlockAt(m, b))
    && (forall b {:trigger BlockHolds(g, n, m', s', b)} :: b in logged ==> BlockHolds(g, n, m', s', b))
  }

  /** Nothing is missing on disk afterwards. */
  lemma CarriedHolds(g: Geometry, n: int, m: Image, s: Fs, m': Image, s': Fs, logged: set<int>)
    requires Carried(g, n, m, s, m', s', logged)
    ensures Holds(g, n, m', s')
  {
    forall b {:trigger BlockHolds(g, n, m', s', b)} ensures BlockHolds(g, n, m', s', b) {
      if b !in logged { UnloggedHolds(g, n, m, s, m', s', logged, b); }
    }
  }

  lemma UnloggedHolds(g: Geometry, n: int, m: Image, s: Fs, m': Image, s': Fs, logged: set<int>, b: int)
    requires Carried(g, n, m, s, m', s', logged) && b !in logged
    ensures BlockHolds(g, n, m', s', b)
  {
    assert BlockHolds(g, n, m, s, b);
    hide BytesOf;
    forall c {:trigger Marked(g, m', c)} | 0 <= c < g.size && BitmapOf(g, c) == b
      ensures s'.used[c] <==> Marked(g, m', c)
    {
      assert s'.used[c] == s.used[c];
      assert Marked(g, m', c) == Marked(g, m, c);
    }
    forall i {:trigger InodeAt(g, m', i)} | 1 <= i < n && InodeBlock(g, i) == b
      ensures s'.inodes[i] == InodeAt(g, m', i)
    {
      assert InodeAt(g, m', i) == InodeAt(g, m, i);
    }
  }

  /** A whole operation, which keeps the files in order. */
  ghost predicate WholeOp(g: Geometry, n: int, m: Image, m': Image) {
    exists s, s', logged {:trigger Carried(g, n, m, s, m', s', logged)} ::
      Carried(g, n, m, s, m', s', logged) && (FilesOk(g, s) ==> FilesOk(g, s'))
  }

  lemma WholeOpIsSound(g: Geometry, n: int, m: Image, m': Image)
    requires WholeOp(g, n, m, m') && Sound(g, n, m)
    ensures Sound(g, n, m')
  {
    var s, s', logged :| Carried(g, n, m, s, m', s', logged) && (FilesOk(g, s) ==> FilesOk(g, s'));
    CarriedHolds(g, n, m, s, m', s', logged);
    SoundIfOk(g, n, m, s);
    SoundIfOk(g, n, m', s');
  }
}
