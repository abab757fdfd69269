/**
  The block layer of the file system (fs.c) as a value: data blocks, the allocation
  bitmap and the inodes' block addresses.

  Blocks are read and written here as a plain map, which is what the log and the buffer
  cache implement (LogProof.ReadsAreCurrent).  Bit b % 8 of byte b / 8 of the bitmap is
  position b of a sequence of booleans.
 */
module FsState {
  const BSIZE := 1024
  const NDIRECT := 12
  const NINDIRECT := 256
  const MAXFILE := 268                 // NDIRECT + NINDIRECT
  const BPB := 8192                    // BSIZE * 8
  const IPB := 16                      // BSIZE / sizeof(struct dinode)
  const SLOTS := 269                   // 12 direct, the indirect pointer, 256 entries

  /** The superblock: size in blocks, first inode and bitmap blocks, number of blocks before the data. */
  datatype Geometry = Geometry(size: int, inodestart: int, bmapstart: int, nmeta: int)

  /** The block addresses and the size of an inode: addrs[0..12] direct, addrs[12] indirect. */
  datatype Inode = Inode(addrs: seq<int>, size: int)

  datatype Fs = Fs(blocks: map<int, seq<int>>, used: seq<bool>, inodes: map<int, Inode>)

  function Zeros(): (z: seq<int>)
    ensures |z| == BSIZE && forall i :: 0 <= i < BSIZE ==> z[i] == 0
  {
    seq(1024, i => 0)
  }

  // ---------------------------------------------------------------- an indirect block as an array of uint

  /** Little-endian word j of a block. */
  function Word(c: seq<int>, j: int): int
    requires |c| == BSIZE && 0 <= j < NINDIRECT
  {
    c[4 * j] + 0x100 * c[4 * j + 1] + 0x1_0000 * c[4 * j + 2] + 0x100_0000 * c[4 * j + 3]
  }

  function SetWord(c: seq<int>, j: int, x: int): (r: seq<int>)
    requires |c| == BSIZE && 0 <= j < NINDIRECT
    ensures |r| == BSIZE
  {
    c[4 * j := x % 0x100][4 * j + 1 := x / 0x100 % 0x100]
     [4 * j + 2 := x / 0x1_0000 % 0x100][4 * j + 3 := x / 0x100_0000]
  }

  lemma WordSet(c: seq<int>, j: int, x: int, k: int)
    requires |c| == BSIZE && 0 <= j < NINDIRECT && 0 <= k < NINDIRECT && 0 <= x < 0x1_0000_0000
    ensures Word(SetWord(c, j, x), k) == if k == j then x else Word(c, k)
  {
    if k == j { Digits(x); }
  }

  lemma Digits(x: int)
    requires 0 <= x < 0x1_0000_0000
    ensures x == x % 0x100 + 0x100 * (x / 0x100 % 0x100)
      + 0x1_0000 * (x / 0x1_0000 % 0x100) + 0x100_0000 * (x / 0x100_0000)
  {
    assert x / 0x100 / 0x100 == x / 0x1_0000;
    assert x / 0x1_0000 / 0x100 == x / 0x100_0000;
  }

  lemma WordZero(j: int)
    requires 0 <= j < NINDIRECT
    ensures Word(Zeros(), j) == 0
  {
  }

  // ---------------------------------------------------------------- shape and slots

  ghost predicate InodeOk(ip: Inode) {
    |ip.addrs| == 13 && 0 <= ip.size <= MAXFILE * BSIZE
  }

  ghost predicate Shape(g: Geometry, s: Fs) {
    && 0 < g.nmeta <= g.size < 0x1_0000_0000 && |s.used| == g.size
    && (forall b :: 0 <= b < g.size ==> b in s.blocks && |s.blocks[b]| == BSIZE)
    && (forall i :: i in s.inodes ==> InodeOk(s.inodes[i]))
  }

  /** Slot k of an inode: a direct address, the indirect pointer (12), or entry k - 13 of the indirect block. */
  ghost function SlotOf(blocks: map<int, seq<int>>, ip: Inode, k: int): int
    requires |ip.addrs| == 13 && 0 <= k < SLOTS
  {
    if k < 13 then ip.addrs[k]
    else if ip.addrs[12] == 0 || ip.addrs[12] !in blocks || |blocks[ip.addrs[12]]| != BSIZE then 0
    else Word(blocks[ip.addrs[12]], k - 13)
  }

  /** The slot of file block bn. */
  function DataSlot(bn: int): int {
    if bn < NDIRECT then bn else bn + 1
  }

  datatype Ref = Ref(inum: int, slot: int)

  /** Every slot in use, with the block it refers to. */
  ghost function Refs(g: Geometry, s: Fs): map<Ref, int>
    requires Shape(g, s)
  {
    map i, k | i in s.inodes && 0 <= k < SLOTS && SlotOf(s.blocks, s.inodes[i], k) != 0 ::
      Ref(i, k) := SlotOf(s.blocks, s.inodes[i], k)
  }

  // ---------------------------------------------------------------- ownership

  ghost predicate RefOk(g: Geometry, used: seq<bool>, refs: map<Ref, int>, r: Ref)
    requires r in refs && |used| == g.size
  {
    0 < g.nmeta <= refs[r] < g.size && used[refs[r]]
  }

  /** Block b is referred to. */
  ghost predicate Referred(refs: map<Ref, int>, b: int) {
    exists r :: r in refs && refs[r] == b
  }

  /**
    Every block is a metadata block marked in use, or free and unreferenced, or marked in
    use and referred to by exactly one slot.
   */
  ghost predicate Owned(g: Geometry, used: seq<bool>, refs: map<Ref, int>) {
    && |used| == g.size && 0 < g.nmeta
    && (forall r :: r in refs ==> RefOk(g, used, refs, r))
    && (forall r, q :: r in refs && q in refs && refs[r] == refs[q] ==> r == q)
    && (forall b :: g.nmeta <= b < g.size && used[b] ==> Referred(refs, b))
    && (forall b :: 0 <= b < g.nmeta && b < g.size ==> used[b])
  }

  /** A block that is not free is metadata, or in exactly one slot; a free one is in none. */
  lemma OwnedOnce(g: Geometry, used: seq<bool>, refs: map<Ref, int>, b: int)
    requires Owned(g, used, refs) && 0 <= b < g.size
    ensures !used[b] ==> b >= g.nmeta && !Referred(refs, b)
    ensures used[b] && b < g.nmeta ==> !Referred(refs, b)
    ensures used[b] && b >= g.nmeta ==>
      exists r :: r in refs && refs[r] == b && forall q :: q in refs && refs[q] == b ==> q == r
  {
    if Referred(refs, b) {
      var r :| r in refs && refs[r] == b;
      assert RefOk(g, used, refs, r);
    }
  }

  /** Marking a free block and putting it into an empty slot. */
  lemma Assigned(g: Geometry, used: seq<bool>, refs: map<Ref, int>, r: Ref, b: int)
    requires Owned(g, used, refs) && r !in refs && 0 < g.nmeta <= b < g.size && !used[b]
    ensures Owned(g, used[b := true], refs[r := b])
  {
    var used', refs' := used[b := true], refs[r := b];
    forall q | q in refs' ensures RefOk(g, used', refs', q) {
      if q != r { assert RefOk(g, used, refs, q); }
    }
    forall q | q in refs ensures refs[q] != b { assert RefOk(g, used, refs, q); }
    forall c | g.nmeta <= c < g.size && used'[c] ensures Referred(refs', c) {
      if c == b { assert r in refs' && refs'[r] == c; }
      else {
        assert Referred(refs, c);
        var q :| q in refs && refs[q] == c;
        assert q in refs' && refs'[q] == c;
      }
    }
  }

  /** Emptying a slot and clearing its block's mark: the block was marked, and no other slot has it. */
  lemma Released(g: Geometry, used: seq<bool>, refs: map<Ref, int>, r: Ref)
    requires Owned(g, used, refs) && r in refs
    ensures 0 <= refs[r] < g.size && used[refs[r]] && refs[r] >= g.nmeta
    ensures Owned(g, used[refs[r] := false], refs - {r})
  {
    assert RefOk(g, used, refs, r);
    var b := refs[r];
    var used', refs' := used[b := false], refs - {r};
    forall q | q in refs' ensures RefOk(g, used', refs', q) {
      assert RefOk(g, used, refs, q);
    }
    forall c | g.nmeta <= c < g.size && used'[c] ensures Referred(refs', c) {
      assert Referred(refs, c);
      var q :| q in refs && refs[q] == c;
      assert q in refs' && refs'[q] == c;
    }
  }

  // ---------------------------------------------------------------- how updates move the slots

  /** The state in which only slot r may differ: it refers to b, or to nothing if b is 0. */
  ghost predicate OneSlot(g: Geometry, s: Fs, s': Fs, r: Ref, b: int)
    requires Shape(g, s) && Shape(g, s')
  {
    && s'.inodes.Keys == s.inodes.Keys && r.inum in s.inodes && 0 <= r.slot < SLOTS
    && SlotOf(s'.blocks, s'.inodes[r.inum], r.slot) == b
    && (forall i, k :: i in s.inodes && 0 <= k < SLOTS && Ref(i, k) != r ==>
      SlotOf(s'.blocks, s'.inodes[i], k) == SlotOf(s.blocks, s.inodes[i], k))
  }

  lemma OneSlotRefs(g: Geometry, s: Fs, s': Fs, r: Ref, b: int)
    requires Shape(g, s) && Shape(g, s') && OneSlot(g, s, s', r, b)
    ensures Refs(g, s') == if b != 0 then Refs(g, s)[r := b] else Refs(g, s) - {r}
  {
    var a, c := Refs(g, s'), Refs(g, s);
    RefsAt(g, s', r);
    assert r in a <==> b != 0;
    assert r in a ==> a[r] == b;
    hide Refs, SlotOf, Shape;
    forall q: Ref | q != r
      ensures (q in a <==> q in c) && (q in c ==> q in a && a[q] == c[q])
    {
      OtherRef(g, s, s', r, b, q);
    }
    hide OneSlot;
    if b != 0 { OnlyAt(a, c, r, b); } else { OnlyWithout(a, c, r); }
  }

  lemma OnlyAt<K, V>(a: map<K, V>, c: map<K, V>, r: K, b: V)
    requires r in a && a[r] == b
    requires forall q :: q in a.Keys + c.Keys && q != r ==> q in a && q in c && a[q] == c[q]
    ensures a == c[r := b]
  {
  }

  lemma OnlyWithout<K, V>(a: map<K, V>, c: map<K, V>, r: K)
    requires r !in a
    requires forall q :: q in a.Keys + c.Keys && q != r ==> q in a && q in c && a[q] == c[q]
    ensures a == c - {r}
  {
  }

  lemma OtherRef(g: Geometry, s: Fs, s': Fs, r: Ref, b: int, q: Ref)
    requires Shape(g, s) && Shape(g, s') && OneSlot(g, s, s', r, b) && q != r
    ensures q in Refs(g, s') <==> q in Refs(g, s)
    ensures q in Refs(g, s) ==> q in Refs(g, s') && Refs(g, s')[q] == Refs(g, s)[q]
  {
    RefsAt(g, s, q);
    RefsAt(g, s', q);
    hide Refs, SlotOf, Shape;
    assert q == Ref(q.inum, q.slot);
  }

  lemma RefsAt(g: Geometry, s: Fs, q: Ref)
    requires Shape(g, s)
    ensures q in Refs(g, s) <==>
      q.inum in s.inodes && 0 <= q.slot < SLOTS && SlotOf(s.blocks, s.inodes[q.inum], q.slot) != 0
    ensures q in Refs(g, s) ==> Refs(g, s)[q] == SlotOf(s.blocks, s.inodes[q.inum], q.slot)
  {
    if q in Refs(g, s) {
      var i, k :| i in s.inodes && 0 <= k < SLOTS && SlotOf(s.blocks, s.inodes[i], k) != 0 && Ref(i, k) == q;
    }
    if q.inum in s.inodes && 0 <= q.slot < SLOTS && SlotOf(s.blocks, s.inodes[q.inum], q.slot) != 0 {
      assert Ref(q.inum, q.slot) == q;
    }
  }

  /** A slot depends on no block but the indirect block of its inode. */
  lemma SlotElsewhere(blocks: map<int, seq<int>>, blocks': map<int, seq<int>>, ip: Inode, k: int)
    requires |ip.addrs| == 13 && 0 <= k < SLOTS
    requires ip.addrs[12] in blocks ==>
      ip.addrs[12] in blocks' && (ip.addrs[12] != 0 ==> blocks'[ip.addrs[12]] == blocks[ip.addrs[12]])
    requires ip.addrs[12] !in blocks ==> ip.addrs[12] !in blocks'
    ensures SlotOf(blocks', ip, k) == SlotOf(blocks, ip, k)
  {
  }

  /** A nonzero slot is a reference to a data block marked in use. */
  lemma SlotIsRef(g: Geometry, s: Fs, i: int, k: int)
    requires Shape(g, s) && Owned(g, s.used, Refs(g, s)) && i in s.inodes && 0 <= k < SLOTS
    requires SlotOf(s.blocks, s.inodes[i], k) != 0
    ensures Ref(i, k) in Refs(g, s) && Refs(g, s)[Ref(i, k)] == SlotOf(s.blocks, s.inodes[i], k)
    ensures 0 < g.nmeta <= SlotOf(s.blocks, s.inodes[i], k) < g.size && s.used[SlotOf(s.blocks, s.inodes[i], k)]
  {
    hide Refs, SlotOf;
    RefsAt(g, s, Ref(i, k));
    assert RefOk(g, s.used, Refs(g, s), Ref(i, k));
  }

  /** Two slots with the same block are the same slot. */
  lemma SlotsApart(g: Geometry, s: Fs, i: int, k: int, j: int, l: int)
    requires Shape(g, s) && Owned(g, s.used, Refs(g, s)) && i in s.inodes
    requires 0 <= k < SLOTS && j in s.inodes && 0 <= l < SLOTS
    requires SlotOf(s.blocks, s.inodes[i], k) != 0
    requires SlotOf(s.blocks, s.inodes[i], k) == SlotOf(s.blocks, s.inodes[j], l)
    ensures i == j && k == l
  {
    hide Refs, SlotOf;
    SlotIsRef(g, s, i, k);
    SlotIsRef(g, s, j, l);
    assert Ref(i, k) == Ref(j, l);
  }

  /** The invariant of the block layer. */
  ghost predicate Ok(g: Geometry, s: Fs) {
    Shape(g, s) && Owned(g, s.used, Refs(g, s))
  }

  /** bmap's update for a direct address or the indirect pointer. */
  function AddAddr(s: Fs, i: int, k: int, b: int): Fs
    requires i in s.inodes && 0 <= k < |s.inodes[i].addrs| && 0 <= b < |s.used|
  {
    Fs(s.blocks[b := Zeros()], s.used[b := true], s.inodes[i := s.inodes[i].(addrs := s.inodes[i].addrs[k := b])])
  }

  lemma AddAddrOk(g: Geometry, s: Fs, i: int, k: int, b: int)
    requires Ok(g, s) && i in s.inodes && 0 <= k < 13 && s.inodes[i].addrs[k] == 0
    requires g.nmeta <= b < g.size && !s.used[b]
    ensures Ok(g, AddAddr(s, i, k, b)) && OneSlot(g, s, AddAddr(s, i, k, b), Ref(i, k), b)
  {
    var s' := AddAddr(s, i, k, b);
    assert Shape(g, s');
    forall j, l | j in s.inodes && 0 <= l < SLOTS && Ref(j, l) != Ref(i, k)
      ensures SlotOf(s'.blocks, s'.inodes[j], l) == SlotOf(s.blocks, s.inodes[j], l)
    {
      hide Refs, Owned;
      var ind := s.inodes[j].addrs[12];
      if ind != 0 { SlotIsRef(g, s, j, 12); }
      if j == i && k == 12 && l >= 13 { WordZero(l - 13); }
    }
    OneSlotRefs(g, s, s', Ref(i, k), b);
    RefsAt(g, s, Ref(i, k));
    Assigned(g, s.used, Refs(g, s), Ref(i, k), b);
  }

  /** bmap's update for an entry of the indirect block. */
  function AddEntry(s: Fs, i: int, j: int, b: int): Fs
    requires i in s.inodes && |s.inodes[i].addrs| == 13 && s.inodes[i].addrs[12] in s.blocks
    requires |s.blocks[s.inodes[i].addrs[12]]| == BSIZE
    requires 0 <= j < NINDIRECT && 0 <= b < |s.used|
  {
    var ind := s.inodes[i].addrs[12];
    Fs(s.blocks[b := Zeros()][ind := SetWord(s.blocks[ind], j, b)], s.used[b := true], s.inodes)
  }

  lemma AddEntryOk(g: Geometry, s: Fs, i: int, j: int, b: int)
    requires Ok(g, s) && i in s.inodes && s.inodes[i].addrs[12] != 0 && s.inodes[i].addrs[12] in s.blocks
    requires |s.blocks[s.inodes[i].addrs[12]]| == BSIZE
    requires 0 <= j < NINDIRECT && SlotOf(s.blocks, s.inodes[i], 13 + j) == 0 && g.nmeta <= b < g.size && !s.used[b]
    ensures Ok(g, AddEntry(s, i, j, b)) && OneSlot(g, s, AddEntry(s, i, j, b), Ref(i, 13 + j), b)
  {
    var s' := AddEntry(s, i, j, b);
    var ind := s.inodes[i].addrs[12];
    SlotIsRef(g, s, i, 12);
    assert Shape(g, s');
    WordSet(s.blocks[ind], j, b, j);
    forall n, l | n in s.inodes && 0 <= l < SLOTS && Ref(n, l) != Ref(i, 13 + j)
      ensures SlotOf(s'.blocks, s'.inodes[n], l) == SlotOf(s.blocks, s.inodes[n], l)
    {
      hide Refs, Owned;
      if s.inodes[n].addrs[12] != 0 { SlotIsRef(g, s, n, 12); }
      if n == i {
        if l >= 13 { WordSet(s.blocks[ind], j, b, l - 13); }
      } else {
        if s.inodes[n].addrs[12] == ind { SlotsApart(g, s, n, 12, i, 12); }
        SlotElsewhere(s.blocks, s'.blocks, s.inodes[n], l);
      }
    }
    OneSlotRefs(g, s, s', Ref(i, 13 + j), b);
    RefsAt(g, s, Ref(i, 13 + j));
    Assigned(g, s.used, Refs(g, s), Ref(i, 13 + j), b);
  }

  // ---------------------------------------------------------------- file contents

  /** The disk block of file block bn, 0 if there is none. */
  ghost function BlockOf(s: Fs, i: int, bn: int): int
    requires i in s.inodes && |s.inodes[i].addrs| == 13 && 0 <= bn < MAXFILE
  {
    SlotOf(s.blocks, s.inodes[i], DataSlot(bn))
  }

  /** Byte a of file i. */
  ghost function ByteAt(s: Fs, i: int, a: int): int
    requires i in s.inodes && |s.inodes[i].addrs| == 13 && 0 <= a < MAXFILE * BSIZE
  {
    var b := BlockOf(s, i, a / BSIZE);
    if b != 0 && b in s.blocks && |s.blocks[b]| == BSIZE then s.blocks[b][a % BSIZE] else 0
  }

  /** The bytes of file i. */
  ghost function Contents(s: Fs, i: int): seq<int>
    requires i in s.inodes && InodeOk(s.inodes[i])
  {
    seq(s.inodes[i].size, a requires 0 <= a < s.inodes[i].size => ByteAt(s, i, a))
  }

  /** Every block below the size of file i exists. */
  ghost predicate NoHoles(s: Fs, i: int)
    requires i in s.inodes && InodeOk(s.inodes[i])
  {
    forall bn :: 0 <= bn < MAXFILE && bn * BSIZE < s.inodes[i].size ==> BlockOf(s, i, bn) != 0
  }

  /** The invariant of the file layer. */
  ghost predicate FilesOk(g: Geometry, s: Fs) {
    Ok(g, s) && forall i :: i in s.inodes ==> NoHoles(s, i)
  }

  /** From s to s', slots were only filled and no block of file data changed. */
  ghost predicate Filled(g: Geometry, s: Fs, s': Fs)
    requires Shape(g, s) && Shape(g, s')
  {
    && s'.inodes.Keys == s.inodes.Keys
    && (forall i :: i in s.inodes ==> s'.inodes[i].size == s.inodes[i].size)
    && (forall i, k :: i in s.inodes && 0 <= k < SLOTS && SlotOf(s.blocks, s.inodes[i], k) != 0 ==>
      SlotOf(s'.blocks, s'.inodes[i], k) == SlotOf(s.blocks, s.inodes[i], k))
    && (forall i, k :: i in s.inodes && 0 <= k < SLOTS && k != 12 && SlotOf(s.blocks, s.inodes[i], k) != 0 ==>
      SameBlock(s.blocks, s'.blocks, SlotOf(s.blocks, s.inodes[i], k)))
  }

  ghost predicate SameBlock(blocks: map<int, seq<int>>, blocks': map<int, seq<int>>, b: int) {
    b in blocks ==> b in blocks' && blocks'[b] == blocks[b]
  }

  /** No slot but k of file i, and its indirect pointer, differs. */
  ghost predicate OnlySlot(g: Geometry, s: Fs, s': Fs, i: int, k: int)
    requires Shape(g, s) && Shape(g, s')
  {
    s'.inodes.Keys == s.inodes.Keys &&
    forall j, l :: j in s.inodes && 0 <= l < SLOTS && !(j == i && (l == k || l == 12)) ==>
      SlotOf(s'.blocks, s'.inodes[j], l) == SlotOf(s.blocks, s.inodes[j], l)
  }

  lemma OnlySlotTwice(g: Geometry, s0: Fs, s1: Fs, s2: Fs, i: int, k: int)
    requires Shape(g, s0) && Shape(g, s1) && Shape(g, s2) && OnlySlot(g, s0, s1, i, k) && OnlySlot(g, s1, s2, i, k)
    ensures OnlySlot(g, s0, s2, i, k)
  {
    hide SlotOf, Shape;
  }

  lemma OnlySlotSelf(g: Geometry, s: Fs, i: int, k: int)
    requires Shape(g, s)
    ensures OnlySlot(g, s, s, i, k)
  {
  }

  lemma FilledTwice(g: Geometry, s0: Fs, s1: Fs, s2: Fs)
    requires Shape(g, s0) && Shape(g, s1) && Shape(g, s2) && Filled(g, s0, s1) && Filled(g, s1, s2)
    ensures Filled(g, s0, s2)
  {
    hide SlotOf, Shape;
  }

  lemma FilledSelf(g: Geometry, s: Fs)
    requires Shape(g, s)
    ensures Filled(g, s, s)
  {
  }

  /** Filling slots changes no file. */
  lemma FilledKeepsFiles(g: Geometry, s: Fs, s': Fs, i: int)
    requires Shape(g, s) && Shape(g, s') && Filled(g, s, s') && i in s.inodes && NoHoles(s, i)
    requires Ok(g, s)
    ensures NoHoles(s', i) && Contents(s', i) == Contents(s, i)
  {
    hide SlotOf, Shape, Owned, Refs;
    assert InodeOk(s.inodes[i]) && InodeOk(s'.inodes[i]) by { ShapeInode(g, s, i); ShapeInode(g, s', i); }
    forall bn | 0 <= bn < MAXFILE && bn * BSIZE < s.inodes[i].size
      ensures BlockOf(s', i, bn) == BlockOf(s, i, bn) != 0
    {
      assert BlockOf(s, i, bn) != 0;
    }
    forall a | 0 <= a < s.inodes[i].size ensures ByteAt(s', i, a) == ByteAt(s, i, a) {
      var bn := a / BSIZE;
      assert BlockOf(s, i, bn) != 0;
      SlotIsRef(g, s, i, DataSlot(bn));
      ShapeBlock(g, s, BlockOf(s, i, bn));
      assert DataSlot(bn) != 12;
    }
    assert Contents(s', i) == Contents(s, i);
  }

  lemma ShapeInode(g: Geometry, s: Fs, i: int)
    requires Shape(g, s) && i in s.inodes
    ensures InodeOk(s.inodes[i])
  {
  }

  lemma ShapeBlock(g: Geometry, s: Fs, b: int)
    requires Shape(g, s) && 0 <= b < g.size
    ensures b in s.blocks && |s.blocks[b]| == BSIZE
  {
  }

  lemma AddAddrFills(g: Geometry, s: Fs, i: int, k: int, b: int)
    requires Ok(g, s) && i in s.inodes && 0 <= k < 13 && s.inodes[i].addrs[k] == 0
    requires g.nmeta <= b < g.size && !s.used[b]
    ensures Ok(g, AddAddr(s, i, k, b)) && Filled(g, s, AddAddr(s, i, k, b))
    ensures k != 12 ==> OnlySlot(g, s, AddAddr(s, i, k, b), i, k)
    ensures k == 12 ==> forall l :: 0 <= l < SLOTS ==> OnlySlot(g, s, AddAddr(s, i, k, b), i, l)
  {
    AddAddrOk(g, s, i, k, b);
    var s' := AddAddr(s, i, k, b);
    hide SlotOf, Refs, Owned, Shape;
    ShapeInode(g, s, i);
    assert SlotOf(s.blocks, s.inodes[i], k) == 0 by { SlotDirect(s.blocks, s.inodes[i], k); }
    forall j, l | j in s.inodes && 0 <= l < SLOTS && SlotOf(s.blocks, s.inodes[j], l) != 0
      ensures SlotOf(s'.blocks, s'.inodes[j], l) == SlotOf(s.blocks, s.inodes[j], l) != b
    {
      SlotIsRef(g, s, j, l);
      assert Ref(j, l) != Ref(i, k);
    }
  }

  lemma SlotDirect(blocks: map<int, seq<int>>, ip: Inode, k: int)
    requires |ip.addrs| == 13 && 0 <= k < 13
    ensures SlotOf(blocks, ip, k) == ip.addrs[k]
  {
  }

  lemma AddEntryFills(g: Geometry, s: Fs, i: int, j: int, b: int)
    requires Ok(g, s) && i in s.inodes && s.inodes[i].addrs[12] != 0 && s.inodes[i].addrs[12] in s.blocks
    requires |s.blocks[s.inodes[i].addrs[12]]| == BSIZE
    requires 0 <= j < NINDIRECT && SlotOf(s.blocks, s.inodes[i], 13 + j) == 0 && g.nmeta <= b < g.size && !s.used[b]
    ensures Ok(g, AddEntry(s, i, j, b)) && Filled(g, s, AddEntry(s, i, j, b))
    ensures OnlySlot(g, s, AddEntry(s, i, j, b), i, 13 + j)
  {
    AddEntryOk(g, s, i, j, b);
    var s' := AddEntry(s, i, j, b);
    var ind := s.inodes[i].addrs[12];
    hide SlotOf, Refs, Owned, Shape;
    assert SlotOf(s.blocks, s.inodes[i], 12) == ind by { SlotDirect(s.blocks, s.inodes[i], 12); }
    forall n, l | n in s.inodes && 0 <= l < SLOTS && SlotOf(s.blocks, s.inodes[n], l) != 0
      ensures SlotOf(s'.blocks, s'.inodes[n], l) == SlotOf(s.blocks, s.inodes[n], l) != b
      ensures l != 12 ==> SlotOf(s.blocks, s.inodes[n], l) != ind
    {
      SlotIsRef(g, s, n, l);
      assert Ref(n, l) != Ref(i, 13 + j);
      if l != 12 && SlotOf(s.blocks, s.inodes[n], l) == ind { SlotsApart(g, s, n, l, i, 12); }
    }
  }

  // ---------------------------------------------------------------- writing a data block

  /** s with the contents of block b replaced. */
  function Put(s: Fs, b: int, c: seq<int>): Fs {
    s.(blocks := s.blocks[b := c])
  }

  /** A data block is nobody's indirect block, so writing it moves no slot. */
  lemma PutKeepsSlots(g: Geometry, s: Fs, i: int, bn: int, c: seq<int>)
    requires Ok(g, s) && i in s.inodes && 0 <= bn < MAXFILE && BlockOf(s, i, bn) != 0 && |c| == BSIZE
    ensures Ok(g, Put(s, BlockOf(s, i, bn), c))
    ensures forall j, k :: j in s.inodes && 0 <= k < SLOTS ==>
      SlotOf(Put(s, BlockOf(s, i, bn), c).blocks, s.inodes[j], k) == SlotOf(s.blocks, s.inodes[j], k)
  {
    var b := BlockOf(s, i, bn);
    var s' := Put(s, b, c);
    SlotIsRef(g, s, i, DataSlot(bn));
    assert Shape(g, s');
    forall j, k | j in s.inodes && 0 <= k < SLOTS
      ensures SlotOf(s'.blocks, s.inodes[j], k) == SlotOf(s.blocks, s.inodes[j], k)
    {
      hide Refs, Owned;
      var ind := s.inodes[j].addrs[12];
      if ind != 0 { SlotIsRef(g, s, j, 12); }
      if ind == b { SlotsApart(g, s, j, 12, i, DataSlot(bn)); }
      SlotElsewhere(s.blocks, s'.blocks, s.inodes[j], k);
    }
    forall q: Ref
      ensures q in Refs(g, s') <==> q in Refs(g, s) ensures q in Refs(g, s') ==> Refs(g, s')[q] == Refs(g, s)[q]
    {
      RefsAt(g, s, q);
      RefsAt(g, s', q);
    }
    assert Refs(g, s') == Refs(g, s);
  }

  lemma PutBytes(g: Geometry, s: Fs, i: int, bn: int, c: seq<int>, j: int, a: int)
    requires Ok(g, s) && i in s.inodes && 0 <= bn < MAXFILE && BlockOf(s, i, bn) != 0 && |c| == BSIZE
    requires j in s.inodes && 0 <= a < MAXFILE * BSIZE
    ensures ByteAt(Put(s, BlockOf(s, i, bn), c), j, a) ==
      if j == i && a / BSIZE == bn then c[a % BSIZE] else ByteAt(s, j, a)
  {
    PutKeepsSlots(g, s, i, bn, c);
    var b := BlockOf(s, i, bn);
    var s' := Put(s, b, c);
    hide SlotOf, Refs, Owned, Shape;
    assert BlockOf(s', j, a / BSIZE) == BlockOf(s, j, a / BSIZE);
    if BlockOf(s, j, a / BSIZE) == b {
      SlotsApart(g, s, j, DataSlot(a / BSIZE), i, DataSlot(bn));
      assert j == i && a / BSIZE == bn;
    }
  }

  /** A file that still has its slots, and its size, in a state with the same bytes. */
  lemma PutKeepsOthers(g: Geometry, s: Fs, i: int, bn: int, c: seq<int>, j: int)
    requires Ok(g, s) && i in s.inodes && 0 <= bn < MAXFILE && BlockOf(s, i, bn) != 0 && |c| == BSIZE
    requires j in s.inodes && j != i && InodeOk(s.inodes[j])
    ensures Contents(Put(s, BlockOf(s, i, bn), c), j) == Contents(s, j)
    ensures NoHoles(s, j) ==> NoHoles(Put(s, BlockOf(s, i, bn), c), j)
  {
    PutKeepsSlots(g, s, i, bn, c);
    var s' := Put(s, BlockOf(s, i, bn), c);
    forall a | 0 <= a < s.inodes[j].size ensures ByteAt(s', j, a) == ByteAt(s, j, a) { PutBytes(g, s, i, bn, c, j, a); }
    hide SlotOf, Refs, Owned, Shape, ByteAt;
    assert Contents(s', j) == Contents(s, j);
    forall n | 0 <= n < MAXFILE ensures BlockOf(s', j, n) == BlockOf(s, j, n) {}
  }

  // ---------------------------------------------------------------- truncation

  /** itrunc's update for a direct address. */
  function ClearAddr(s: Fs, i: int, k: int): Fs
    requires i in s.inodes && 0 <= k < |s.inodes[i].addrs| && 0 <= s.inodes[i].addrs[k] < |s.used|
  {
    Fs(s.blocks, s.used[s.inodes[i].addrs[k] := false], s.inodes[i := s.inodes[i].(addrs := s.inodes[i].addrs[k := 0])])
  }

  lemma ClearAddrOk(g: Geometry, s: Fs, i: int, k: int)
    requires Ok(g, s) && i in s.inodes && 0 <= k < 12 && s.inodes[i].addrs[k] != 0
    ensures 0 <= s.inodes[i].addrs[k] < |s.used| && s.used[s.inodes[i].addrs[k]] && Ok(g, ClearAddr(s, i, k))
  {
    SlotDirect(s.blocks, s.inodes[i], k);
    SlotIsRef(g, s, i, k);
    var s' := ClearAddr(s, i, k);
    assert Shape(g, s');
    assert OneSlot(g, s, s', Ref(i, k), 0) by { hide Refs, Owned; }
    OneSlotRefs(g, s, s', Ref(i, k), 0);
    Released(g, s.used, Refs(g, s), Ref(i, k));
  }

  /** refs without the first j indirect entries of file i. */
  ghost function Minus(refs: map<Ref, int>, i: int, j: int): map<Ref, int> {
    map r | r in refs && !(r.inum == i && 13 <= r.slot < 13 + j) :: refs[r]
  }

  lemma MinusNext(refs: map<Ref, int>, i: int, j: int)
    requires 0 <= j
    ensures Minus(refs, i, 0) == refs
    ensures Minus(refs, i, j + 1) == Minus(refs, i, j) - {Ref(i, 13 + j)}
    ensures Ref(i, 13 + j) in Minus(refs, i, j) <==> Ref(i, 13 + j) in refs
  {
    var m, m' := Minus(refs, i, j) - {Ref(i, 13 + j)}, Minus(refs, i, j + 1);
    forall r | r in m ensures r in m' {
      assert r == Ref(r.inum, r.slot);
    }
  }

  function NoAddrs(): (a: seq<int>)
    ensures |a| == 13 && forall k :: 0 <= k < 13 ==> a[k] == 0
  {
    seq(13, k => 0)
  }

  /** File i without any block. */
  function Emptied(s: Fs, i: int, used: seq<bool>): Fs
    requires i in s.inodes
  {
    Fs(s.blocks, used, s.inodes[i := Inode(NoAddrs(), 0)])
  }

  /** Dropping the indirect pointer drops every entry with it. */
  lemma EmptiedRefs(g: Geometry, s: Fs, i: int, used: seq<bool>)
    requires Shape(g, s) && i in s.inodes && |used| == g.size && forall k :: 0 <= k < 12 ==> s.inodes[i].addrs[k] == 0
    ensures Shape(g, Emptied(s, i, used))
    ensures Refs(g, Emptied(s, i, used)) == Minus(Refs(g, s), i, NINDIRECT) - {Ref(i, 12)}
  {
    assert Shape(g, Emptied(s, i, used));
    var a, c := Refs(g, Emptied(s, i, used)), Minus(Refs(g, s), i, NINDIRECT) - {Ref(i, 12)};
    hide Shape, Refs, Minus, Emptied;
    forall q: Ref ensures (q in a <==> q in c) && (q in a && q in c ==> a[q] == c[q]) { EmptiedRef(g, s, i, used, q); }
    SameMap(a, c);
  }

  lemma EmptiedRef(g: Geometry, s: Fs, i: int, used: seq<bool>, q: Ref)
    requires Shape(g, s) && i in s.inodes && |used| == g.size && forall k :: 0 <= k < 12 ==> s.inodes[i].addrs[k] == 0
    requires Shape(g, Emptied(s, i, used))
    ensures var a, c := Refs(g, Emptied(s, i, used)), Minus(Refs(g, s), i, NINDIRECT) - {Ref(i, 12)};
      (q in a <==> q in c) && (q in a && q in c ==> a[q] == c[q])
  {
    RefsAt(g, s, q);
    RefsAt(g, Emptied(s, i, used), q);
    hide Refs;
    assert q == Ref(q.inum, q.slot);
  }

  lemma SameMap<K, V>(a: map<K, V>, c: map<K, V>)
    requires forall q :: q in a.Keys + c.Keys ==> q in a && q in c && a[q] == c[q]
    ensures a == c
  {
  }

  // ---------------------------------------------------------------- the course of a write

  lemma FilledByte(g: Geometry, s: Fs, s': Fs, i: int, a: int)
    requires Ok(g, s) && Shape(g, s') && Filled(g, s, s') && i in s.inodes
    requires 0 <= a < MAXFILE * BSIZE && BlockOf(s, i, a / BSIZE) != 0
    ensures BlockOf(s', i, a / BSIZE) == BlockOf(s, i, a / BSIZE) && ByteAt(s', i, a) == ByteAt(s, i, a)
  {
    hide SlotOf, Owned, Refs;
    SlotIsRef(g, s, i, DataSlot(a / BSIZE));
    ShapeBlock(g, s, BlockOf(s, i, a / BSIZE));
    ShapeBlock(g, s', BlockOf(s, i, a / BSIZE));
    assert DataSlot(a / BSIZE) != 12;
  }

  function Max(a: int, b: int): int {
    if a < b then b else a
  }

  /** Byte a of the file that was s0's, after w bytes of data went to off. */
  ghost predicate ByteWritten(s0: Fs, s: Fs, i: int, off: int, data: seq<int>, w: int, a: int)
    requires i in s0.inodes && |s0.inodes[i].addrs| == 13 && i in s.inodes && |s.inodes[i].addrs| == 13
    requires 0 <= a < MAXFILE * BSIZE && 0 <= w <= |data|
  {
    ByteAt(s, i, a) == if off <= a < off + w then data[a - off] else ByteAt(s0, i, a)
  }

  /**
    writei on its way: tot bytes count as written, w >= tot have reached the blocks.
    Every block that the file needs exists, and the bytes are the right ones.
   */
  ghost predicate Writing(g: Geometry, s0: Fs, s: Fs, i: int, off: int, data: seq<int>, tot: int, w: int) {
    && FilesOk(g, s0) && Ok(g, s) && i in s0.inodes && s.inodes.Keys == s0.inodes.Keys
    && 0 <= tot <= w <= |data| && 0 <= off <= s0.inodes[i].size && off + |data| <= MAXFILE * BSIZE
    && s.inodes[i].size == s0.inodes[i].size
    && (forall bn :: 0 <= bn < MAXFILE && bn * BSIZE < Max(s0.inodes[i].size, off + tot) ==> BlockOf(s, i, bn) != 0)
    && (forall a :: 0 <= a < Max(s0.inodes[i].size, off + tot) ==> ByteWritten(s0, s, i, off, data, w, a))
  }

  /** Every other file is what it was. */
  ghost predicate OthersSame(g: Geometry, s0: Fs, s: Fs, i: int)
    requires Shape(g, s0) && Shape(g, s)
  {
    s.inodes.Keys == s0.inodes.Keys &&
    forall j :: j in s0.inodes && j != i ==>
      Contents(s, j) == Contents(s0, j) && (NoHoles(s0, j) ==> NoHoles(s, j))
  }

  lemma OthersFilled(g: Geometry, s0: Fs, s: Fs, s': Fs, i: int)
    requires FilesOk(g, s0) && Ok(g, s) && Ok(g, s') && OthersSame(g, s0, s, i) && Filled(g, s, s')
    ensures OthersSame(g, s0, s', i)
  {
    hide SlotOf, Owned, Refs, Filled, Contents, NoHoles;
    assert s'.inodes.Keys == s.inodes.Keys by { SameKeys(g, s, s'); }
    forall j | j in s0.inodes && j != i
      ensures Contents(s', j) == Contents(s0, j) && (NoHoles(s0, j) ==> NoHoles(s', j))
    {
      FilledKeepsFiles(g, s, s', j);
    }
  }

  lemma SameKeys(g: Geometry, s: Fs, s': Fs)
    requires Shape(g, s) && Shape(g, s') && Filled(g, s, s')
    ensures s'.inodes.Keys == s.inodes.Keys && forall i :: i in s.inodes ==> s'.inodes[i].size == s.inodes[i].size
  {
  }

  lemma WritingFilled(g: Geometry, s0: Fs, s: Fs, s': Fs, i: int, off: int, data: seq<int>, tot: int)
    requires Writing(g, s0, s, i, off, data, tot, tot) && Ok(g, s') && Filled(g, s, s')
    ensures Writing(g, s0, s', i, off, data, tot, tot)
  {
    hide SlotOf, Owned, Refs, Filled, Contents, NoHoles, ByteAt, BlockOf;
    SameKeys(g, s, s');
    var m := Max(s0.inodes[i].size, off + tot);
    assert m <= MAXFILE * BSIZE by { ShapeInode(g, s0, i); }
    ShapeInode(g, s', i);
    forall a | 0 <= a < m ensures ByteWritten(s0, s', i, off, data, tot, a) {
      assert ByteWritten(s0, s, i, off, data, tot, a);
      assert BlockOf(s, i, a / BSIZE) != 0;
      FilledByte(g, s, s', i, a);
    }
    forall bn | 0 <= bn < MAXFILE && bn * BSIZE < m ensures BlockOf(s', i, bn) != 0 {
      assert BlockOf(s, i, bn) != 0;
      FilledByte(g, s, s', i, bn * BSIZE);
    }
  }

  function Patch(c: seq<int>, o: int, d: seq<int>): seq<int>
    requires 0 <= o && o + |d| <= |c|
  {
    c[..o] + d + c[o + |d|..]
  }

  /** A round of writei: p of the m bytes of this round reach the block; the round counts if all do. */
  lemma WritingPut(g: Geometry, s0: Fs, s: Fs, i: int, off: int, data: seq<int>, tot: int, m: int, p: int)
    requires Writing(g, s0, s, i, off, data, tot, tot) && 0 <= p <= m && tot + m <= |data| && m > 0
    requires (off + tot) % BSIZE + m <= BSIZE && BlockOf(s, i, (off + tot) / BSIZE) != 0
    ensures var b := BlockOf(s, i, (off + tot) / BSIZE);
      && b in s.blocks && |s.blocks[b]| == BSIZE
      && var s' := Put(s, b, Patch(s.blocks[b], (off + tot) % BSIZE, data[tot..tot + p]));
        Writing(g, s0, s', i, off, data, if p == m then tot + m else tot, tot + p) && OthersSame(g, s, s', i)
  {
    var bn := (off + tot) / BSIZE;
    var b := BlockOf(s, i, bn);
    assert b in s.blocks && |s.blocks[b]| == BSIZE by { SlotIsRef(g, s, i, DataSlot(bn)); ShapeBlock(g, s, b); }
    var c := Patch(s.blocks[b], (off + tot) % BSIZE, data[tot..tot + p]);
    assert |c| == BSIZE;
    var s' := Put(s, b, c);
    hide Patch, SlotOf, Owned, Refs, Contents, NoHoles, BlockOf;
    PutOthers(g, s, i, bn, c);
    PutBlocks(g, s0, s, i, off, data, tot, m, p, c);
    PutAllBytes(g, s0, s, i, off, data, tot, m, p);
  }

  lemma PutOthers(g: Geometry, s: Fs, i: int, bn: int, c: seq<int>)
    requires Ok(g, s) && i in s.inodes && 0 <= bn < MAXFILE && BlockOf(s, i, bn) != 0 && |c| == BSIZE
    ensures Ok(g, Put(s, BlockOf(s, i, bn), c)) && OthersSame(g, s, Put(s, BlockOf(s, i, bn), c), i)
  {
    PutKeepsSlots(g, s, i, bn, c);
    hide SlotOf, Owned, Refs, Contents, NoHoles, BlockOf;
    var s' := Put(s, BlockOf(s, i, bn), c);
    forall j | j in s.inodes && j != i ensures Contents(s', j) == Contents(s, j) && (NoHoles(s, j) ==> NoHoles(s', j)) {
      PutKeepsOthers(g, s, i, bn, c, j);
    }
  }

  lemma PutBlocks(g: Geometry, s0: Fs, s: Fs, i: int, off: int, data: seq<int>, tot: int, m: int, p: int, c: seq<int>)
    requires Writing(g, s0, s, i, off, data, tot, tot) && 0 <= p <= m && tot + m <= |data| && m > 0 && |c| == BSIZE
    requires (off + tot) % BSIZE + m <= BSIZE && BlockOf(s, i, (off + tot) / BSIZE) != 0
    ensures var s' := Put(s, BlockOf(s, i, (off + tot) / BSIZE), c);
      forall n :: 0 <= n < MAXFILE && n * BSIZE < Max(s0.inodes[i].size, off + tot + m) ==> BlockOf(s', i, n) != 0
  {
    var bn := (off + tot) / BSIZE;
    PutKeepsSlots(g, s, i, bn, c);
    hide SlotOf, Owned, Refs;
    var s' := Put(s, BlockOf(s, i, bn), c);
    forall n | 0 <= n < MAXFILE && n * BSIZE < Max(s0.inodes[i].size, off + tot + m) ensures BlockOf(s', i, n) != 0 {
      assert n == bn || n * BSIZE < Max(s0.inodes[i].size, off + tot);
      assert BlockOf(s, i, n) != 0;
    }
  }

  lemma PutAllBytes(g: Geometry, s0: Fs, s: Fs, i: int, off: int, data: seq<int>, tot: int, m: int, p: int)
    requires Writing(g, s0, s, i, off, data, tot, tot) && 0 <= p <= m && tot + m <= |data| && m > 0
    requires (off + tot) % BSIZE + m <= BSIZE
    requires var b := BlockOf(s, i, (off + tot) / BSIZE); b != 0 && b in s.blocks && |s.blocks[b]| == BSIZE
    ensures var b := BlockOf(s, i, (off + tot) / BSIZE);
      var s' := Put(s, b, Patch(s.blocks[b], (off + tot) % BSIZE, data[tot..tot + p]));
      var w := tot + p;
      forall a :: 0 <= a < Max(s0.inodes[i].size, off + tot + p) ==> ByteWritten(s0, s', i, off, data, w, a)
  {
    var bn := (off + tot) / BSIZE;
    var b := BlockOf(s, i, bn);
    var c := Patch(s.blocks[b], (off + tot) % BSIZE, data[tot..tot + p]);
    var s' := Put(s, b, c);
    assert |c| == BSIZE;
    hide SlotOf, Owned, Refs, BlockOf, Patch, ByteAt;
    var w := tot + p;
    forall a | 0 <= a < Max(s0.inodes[i].size, off + tot + p) ensures ByteWritten(s0, s', i, off, data, w, a) {
      PutBytes(g, s, i, bn, c, i, a);
      PutByteValue(g, s0, s, i, off, data, tot, p, a);
      if a < Max(s0.inodes[i].size, off + tot) {
        assert ByteWritten(s0, s, i, off, data, tot, a);
      } else {
        assert a / BSIZE == bn;
      }
    }
  }

  /** The patched block holds the old bytes around the new ones. */
  lemma PutByteValue(g: Geometry, s0: Fs, s: Fs, i: int, off: int, data: seq<int>, tot: int, p: int, a: int)
    requires Ok(g, s) && i in s.inodes && |s.inodes[i].addrs| == 13
    requires 0 <= off && 0 <= tot && 0 <= p && tot + p <= |data|
    requires off + |data| <= MAXFILE * BSIZE && 0 <= a < MAXFILE * BSIZE
    requires (off + tot) % BSIZE + p <= BSIZE && off + tot < MAXFILE * BSIZE
    requires var b := BlockOf(s, i, (off + tot) / BSIZE); b != 0 && b in s.blocks && |s.blocks[b]| == BSIZE
    ensures var b := BlockOf(s, i, (off + tot) / BSIZE);
      var c := Patch(s.blocks[b], (off + tot) % BSIZE, data[tot..tot + p]);
      a / BSIZE == (off + tot) / BSIZE ==>
        c[a % BSIZE] == if off + tot <= a < off + tot + p then data[a - off] else ByteAt(s, i, a)
  {
    hide SlotOf, Owned, Refs, Shape;
    var o := (off + tot) % BSIZE;
    if a / BSIZE == (off + tot) / BSIZE {
      assert a - (off + tot) == a % BSIZE - o;
    }
  }
}
