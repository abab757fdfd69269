/**
  balloc, bfree, bmap and itrunc (fs.c), in place.

  logged is the set of blocks passed to log_write since begin_op, and peak the most it had
  before any of those calls: log_write looks for room before it looks whether it needs any.
 */
module FsCode {
  import opened Params
  import opened FsState

  /** Every block is marked in use. */
  ghost predicate Full(g: Geometry, used: seq<bool>) {
    forall b :: 0 <= b < g.size && b < |used| ==> used[b]
  }

  /** BBLOCK(b, sb) */
  ghost function BitmapOf(g: Geometry, b: int): int {
    b / BPB + g.bmapstart
  }

  /** What bmap logged between s and s': a new block with its bitmap block, the indirect block, both for a new one. */
  ghost function NewLog(g: Geometry, s: Fs, s': Fs, i: int, bn: int): set<int>
    requires i in s.inodes && |s.inodes[i].addrs| == 13 && i in s'.inodes
    requires |s'.inodes[i].addrs| == 13 && 0 <= bn < MAXFILE
  {
    var a, ind := BlockOf(s', i, bn), s'.inodes[i].addrs[12];
    (if BlockOf(s, i, bn) == 0 && a != 0 then {a, BitmapOf(g, a)} + (if bn >= NDIRECT then {ind} else {}) else {})
    + (if s.inodes[i].addrs[12] == 0 && ind != 0 then {ind, BitmapOf(g, ind)} else {})
  }

  ghost function PeakWith(peak: nat, logged: set<int>): nat {
    Max(peak, |logged|)
  }

  /** The log only grew, and no call of log_write found more in it than there is now. */
  ghost predicate Peaked(peak: nat, logged: set<int>, peak': nat, logged': set<int>) {
    logged <= logged' && peak' <= PeakWith(peak, logged')
  }

  lemma PeakedSelf(peak: nat, logged: set<int>)
    ensures Peaked(peak, logged, peak, logged)
  {
  }

  lemma PeakedTwice(peak: nat, logged: set<int>, peak1: nat, logged1: set<int>, peak2: nat, logged2: set<int>)
    requires Peaked(peak, logged, peak1, logged1) && Peaked(peak1, logged1, peak2, logged2)
    ensures Peaked(peak, logged, peak2, logged2)
  {
    MoreLogged(logged1, logged2);
    assert logged1 + logged2 == logged2;
  }

  /**
    Every block on disk that differs between s and s' has been passed to log_write: data and
    indirect blocks, the bitmap blocks of changed marks, and the inode blocks of changed inodes,
    except those of the inodes held, which iupdate has still to copy there.
   */
  ghost predicate Tracked(g: Geometry, s: Fs, s': Fs, logged: set<int>, held: set<int>) {
    && |s'.used| == |s.used| && s'.inodes.Keys == s.inodes.Keys
    && (forall b :: b in s.blocks ==> b in s'.blocks && (s'.blocks[b] == s.blocks[b] || b in logged))
    && (forall b {:trigger s'.used[b]} :: 0 <= b < |s.used| && s'.used[b] != s.used[b] ==> BitmapOf(g, b) in logged)
    && (forall i :: i in s.inodes && i !in held && s'.inodes[i] != s.inodes[i] ==> InodeBlock(g, i) in logged)
  }

  /** IBLOCK(i, sb) */
  ghost function InodeBlock(g: Geometry, i: int): int {
    i / IPB + g.inodestart
  }

  lemma TrackedSelf(g: Geometry, s: Fs, logged: set<int>, held: set<int>)
    ensures Tracked(g, s, s, logged, held)
  {
  }

  lemma TrackedTwice(g: Geometry, s0: Fs, s1: Fs, s2: Fs, logged1: set<int>, logged2: set<int>, held: set<int>)
    requires Tracked(g, s0, s1, logged1, held) && Tracked(g, s1, s2, logged2, held) && logged1 <= logged2
    ensures Tracked(g, s0, s2, logged2, held)
  {
    hide BitmapOf, InodeBlock;
  }

  lemma TrackedHeld(g: Geometry, s: Fs, s': Fs, logged: set<int>, held: set<int>)
    requires Tracked(g, s, s', logged, {})
    ensures Tracked(g, s, s', logged, held)
  {
    hide BitmapOf, InodeBlock;
  }

  /** iupdate: inode i changes in memory only, or is on its way to the log. */
  lemma TrackedInode(g: Geometry, s: Fs, s1: Fs, s2: Fs, logged: set<int>, i: int)
    requires Tracked(g, s, s1, logged, {i}) && s2.blocks == s1.blocks && s2.used == s1.used
    requires i in s1.inodes && i in s2.inodes && s2.inodes == s1.inodes[i := s2.inodes[i]]
    ensures Tracked(g, s, s2, logged, {i}) && Tracked(g, s, s2, logged + {InodeBlock(g, i)}, {})
  {
    hide BitmapOf;
  }

  lemma TrackedBlock(g: Geometry, s: Fs, s1: Fs, s2: Fs, logged: set<int>, b: int, held: set<int>)
    requires Tracked(g, s, s1, logged, held) && s2.used == s1.used && s2.inodes == s1.inodes
    requires b in s2.blocks && s2.blocks == s1.blocks[b := s2.blocks[b]]
    ensures Tracked(g, s, s2, logged + {b}, held)
  {
    hide BitmapOf, InodeBlock;
  }

  lemma StillLogged(peak: nat, logged: set<int>, peak': nat, logged': set<int>)
    requires Peaked(peak, logged, peak', logged')
    ensures logged <= logged'
  {
  }

  /** An operation, from begin_op to end_op: what it logged, its peak, and the disk before and after. */
  datatype Operation = Operation(logged: set<int>, peak: nat, before: Fs, after: Fs)

  lemma MoreLogged(a: set<int>, b: set<int>)
    ensures |a| <= |a + b|
  {
    assert a + b == a + (b - a);
  }

  lemma ThreeLogged(s: set<int>, a: int, b: int, c: int)
    ensures s + {b, a} + {c} == s + {a, b, c}
  {
  }

  class FileSystem {
    const g: Geometry
    var blocks: map<int, seq<int>>
    var used: seq<bool>
    var inodes: map<int, Inode>
    ghost var logged: set<int>
    ghost var peak: nat
    ghost var began: Fs                  // the disk at begin_op
    ghost var history: seq<Operation>    // the operations that have ended

    /** A mounted disk. */
    constructor (geometry: Geometry, disk: Fs)
      ensures g == geometry && Now() == disk && logged == {} && peak == 0 && history == []
    {
      g, blocks, used, inodes := geometry, disk.blocks, disk.used, disk.inodes;
      logged, peak, began, history := {}, 0, disk, [];
    }

    ghost function Now(): Fs
      reads this`blocks, this`used, this`inodes
    {
      Fs(blocks, used, inodes)
    }

    ghost function BitmapBlock(b: int): int {
      BitmapOf(g, b)
    }

    ghost method BeginOp()
      modifies this`logged, this`peak, this`began
      ensures logged == {} && peak == 0 && began == Now()
    {
      logged, peak, began := {}, 0, Now();
    }

    ghost method EndOp()
      modifies this`history
      ensures history == old(history) + [Operation(logged, peak, began, Now())]
    {
      history := history + [Operation(logged, peak, began, Now())];
    }

    ghost method LogWrite(b: int)
      modifies this`logged, this`peak
      ensures logged == old(logged) + {b} && peak == PeakWith(old(peak), old(logged))
      ensures Peaked(old(peak), old(logged), peak, logged)
    {
      peak := PeakWith(peak, logged);
      MoreLogged(logged, {b});
      logged := logged + {b};
    }

    /** balloc's block is found: set its bit, and bzero it. */
    method Mark(b: int)
      requires 0 <= b < |used|
      modifies this`blocks, this`used, this`logged, this`peak
      ensures used == old(used)[b := true] && blocks == old(blocks)[b := Zeros()]
      ensures logged == old(logged) + {BitmapBlock(b), b} && Peaked(old(peak), old(logged), peak, logged)
      ensures Tracked(g, old(Now()), Now(), logged, {})
    {
      hide Peaked, PeakWith;
      used := used[b := true];
      LogWrite(BitmapBlock(b));
      ghost var peak1, logged1 := peak, logged;
      blocks := blocks[b := Zeros()];
      LogWrite(b);
      PeakedTwice(old(peak), old(logged), peak1, logged1, peak, logged);
    }

    /** balloc: the first free block, now marked and zeroed; or 0 when all are marked. */
    method Balloc() returns (r: int)
      requires Shape(g, Now()) && forall b :: 0 <= b < g.nmeta ==> used[b]
      modifies this`blocks, this`used, this`logged, this`peak
      ensures r == 0 ==> Now() == old(Now()) && logged == old(logged) && Full(g, used)
      ensures r != 0 ==> g.nmeta <= r < g.size && !old(used)[r] && forall b :: 0 <= b < r ==> old(used)[b]
      ensures r != 0 ==> used == old(used)[r := true] && blocks == old(blocks)[r := Zeros()]
      ensures r != 0 ==> logged == old(logged) + {BitmapBlock(r), r}
      ensures Peaked(old(peak), old(logged), peak, logged)
      ensures Tracked(g, old(Now()), Now(), logged, {})
    {
      hide Peaked, PeakWith, BitmapOf, Tracked;
      PeakedSelf(peak, logged);
      TrackedSelf(g, Now(), logged, {});
      var b := 0;
      while b < g.size
        invariant 0 <= b && forall c :: 0 <= c < b && c < g.size ==> used[c]
        invariant Now() == old(Now()) && logged == old(logged) && peak == old(peak)
      {
        var bi := 0;
        while bi < BPB && b + bi < g.size
          invariant 0 <= bi <= BPB && forall c :: 0 <= c < b + bi && c < g.size ==> used[c]
          invariant Now() == old(Now()) && logged == old(logged) && peak == old(peak)
        {
          if !used[b + bi] {
            Mark(b + bi);
            return b + bi;
          }
          bi := bi + 1;
        }
        b := b + BPB;
      }
      return 0;
    }

    /** bfree: the panic "freeing free block" is the caller's to rule out. */
    method Bfree(b: int)
      requires 0 <= b < |used| && used[b]
      modifies this`used, this`logged, this`peak
      ensures used == old(used)[b := false] && logged == old(logged) + {BitmapBlock(b)}
      ensures Tracked(g, old(Now()), Now(), logged, {})
    {
      used := used[b := false];
      LogWrite(BitmapBlock(b));
    }

    /**
      bmap: the disk block of file block bn, allocated if need be; 0 if the disk is full.
      No block that a file had changes hands, and no other slot is touched.
     */
    method Bmap(inum: int, bn: int) returns (addr: int)
      requires Ok(g, Now()) && inum in inodes && 0 <= bn < MAXFILE
      modifies this`blocks, this`used, this`inodes, this`logged, this`peak
      ensures Ok(g, Now()) && Filled(g, old(Now()), Now()) && inum in inodes
      ensures OnlySlot(g, old(Now()), Now(), inum, DataSlot(bn))
      ensures addr == BlockOf(Now(), inum, bn) && (addr == 0 ==> Full(g, used))
      ensures BlockOf(old(Now()), inum, bn) != 0 ==> Now() == old(Now()) && logged == old(logged)
      ensures |old(inodes)[inum].addrs| == 13 && logged == old(logged) + NewLog(g, old(Now()), Now(), inum, bn)
      ensures Peaked(old(peak), old(logged), peak, logged)
      ensures Tracked(g, old(Now()), Now(), logged, {inum})
    {
      hide Refs, Owned, SlotOf, Filled, OnlySlot, Shape, Full, BitmapOf, Peaked, PeakWith, NewLog, Tracked;
      ghost var s := Now();
      ShapeInode(g, s, inum);
      if bn < NDIRECT {
        SlotDirect(blocks, inodes[inum], bn);
        addr := BmapAddr(inum, bn);
        SlotDirect(blocks, inodes[inum], bn);
        NewDirect(g, s, Now(), inum, bn);
        return addr;
      }
      addr := BmapIndirect(inum, bn);
    }

    /** bmap past the direct blocks: the indirect block, then its entry. */
    method BmapIndirect(inum: int, bn: int) returns (addr: int)
      requires Ok(g, Now()) && inum in inodes && NDIRECT <= bn < MAXFILE
      modifies this`blocks, this`used, this`inodes, this`logged, this`peak
      ensures Ok(g, Now()) && Filled(g, old(Now()), Now()) && inum in inodes
      ensures OnlySlot(g, old(Now()), Now(), inum, DataSlot(bn))
      ensures |inodes[inum].addrs| == 13 && addr == BlockOf(Now(), inum, bn) && (addr == 0 ==> Full(g, used))
      ensures |old(inodes)[inum].addrs| == 13
      ensures (BlockOf(old(Now()), inum, bn) != 0 ==> Now() == old(Now()) && logged == old(logged))
      ensures logged == old(logged) + NewLog(g, old(Now()), Now(), inum, bn)
      ensures Peaked(old(peak), old(logged), peak, logged)
      ensures Tracked(g, old(Now()), Now(), logged, {inum})
    {
      hide Refs, Owned, SlotOf, Filled, OnlySlot, Shape, Full, BitmapOf, Peaked, PeakWith, NewLog, Tracked;
      ghost var s := Now();
      ShapeInode(g, s, inum);
      var j := bn - NDIRECT;
      var ind := BmapAddr(inum, 12);
      ghost var s1, peak1, logged1 := Now(), peak, logged;
      OnlySlotWider(g, s, s1, inum, DataSlot(bn));
      EntryStays(g, s, s1, inum, 13 + j);
      if ind == 0 {
        NewIndirect(g, s, s1, s1, inum, bn);
        return 0;
      }
      addr := BmapEntry(inum, j);
      PeakedTwice(old(peak), old(logged), peak1, logged1, peak, logged);
      StillLogged(peak1, logged1, peak, logged);
      TrackedTwice(g, s, s1, Now(), logged1, logged, {inum});
      FilledTwice(g, s, s1, Now());
      OnlySlotTwice(g, s, s1, Now(), inum, DataSlot(bn));
      NewIndirect(g, s, s1, Now(), inum, bn);
    }

    /** The two parts of bmap that look into the inode: address k, or the indirect pointer. */
    method BmapAddr(inum: int, k: int) returns (addr: int)
      requires Ok(g, Now()) && inum in inodes && 0 <= k <= 12
      modifies this`blocks, this`used, this`inodes, this`logged, this`peak
      ensures Ok(g, Now()) && Filled(g, old(Now()), Now()) && inum in inodes && OnlySlot(g, old(Now()), Now(), inum, k)
      ensures |old(inodes)[inum].addrs| == 13 && |inodes[inum].addrs| == 13 && addr == inodes[inum].addrs[k]
      ensures k != 12 ==> inodes[inum].addrs[12] == old(inodes)[inum].addrs[12]
      ensures addr == 0 ==> Full(g, used)
      ensures old(inodes)[inum].addrs[k] != 0 ==> Now() == old(Now()) && logged == old(logged)
      ensures logged == old(logged) +
        if old(inodes)[inum].addrs[k] == 0 && addr != 0 then {addr, BitmapBlock(addr)} else {}
      ensures Peaked(old(peak), old(logged), peak, logged)
      ensures Tracked(g, old(Now()), Now(), logged, {inum})
    {
      hide Refs, Owned, SlotOf, Filled, OnlySlot, Tracked, Shape, BitmapOf;
      TrackedSelf(g, Now(), logged, {inum});
      ghost var s := Now();
      ShapeInode(g, s, inum);
      Metadata(g, s);
      FilledSelf(g, s);
      OnlySlotSelf(g, s, inum, k);
      addr := inodes[inum].addrs[k];
      if addr == 0 {
        addr := Balloc();
        if addr != 0 {
          AddAddrFills(g, s, inum, k, addr);
          ghost var s1 := Now();
          TrackedHeld(g, s, s1, logged, {inum});
          inodes := inodes[inum := inodes[inum].(addrs := inodes[inum].addrs[k := addr])];
          assert Now() == AddAddr(s, inum, k, addr);
          TrackedInode(g, s, s1, Now(), logged, inum);
        }
      }
    }

    /** The last part of bmap: entry j of the indirect block. */
    method BmapEntry(inum: int, j: int) returns (addr: int)
      requires Ok(g, Now()) && inum in inodes && 0 <= j < NINDIRECT
      requires |inodes[inum].addrs| == 13 && inodes[inum].addrs[12] != 0
      modifies this`blocks, this`used, this`inodes, this`logged, this`peak
      ensures Ok(g, Now()) && Filled(g, old(Now()), Now()) && inodes == old(inodes)
      ensures OnlySlot(g, old(Now()), Now(), inum, 13 + j)
      ensures addr == SlotOf(blocks, inodes[inum], 13 + j) && (addr == 0 ==> Full(g, used))
      ensures SlotOf(old(blocks), inodes[inum], 13 + j) != 0 ==> Now() == old(Now()) && logged == old(logged)
      ensures logged == old(logged) +
        if SlotOf(old(blocks), inodes[inum], 13 + j) == 0 && addr != 0
        then {addr, BitmapBlock(addr), inodes[inum].addrs[12]} else {}
      ensures Peaked(old(peak), old(logged), peak, logged)
      ensures Tracked(g, old(Now()), Now(), logged, {inum})
    {
      hide Refs, Owned, SlotOf, Filled, OnlySlot, Peaked, PeakWith, Full, Shape, Word, SetWord, BitmapOf, Tracked;
      PeakedSelf(peak, logged);
      TrackedSelf(g, Now(), logged, {inum});
      ghost var s := Now();
      Metadata(g, s);
      FilledSelf(g, s);
      OnlySlotSelf(g, s, inum, 13 + j);
      var ind := inodes[inum].addrs[12];
      IndirectBlock(g, s, inum);
      SlotEntry(blocks, inodes[inum], j);
      addr := Word(blocks[ind], j);
      if addr == 0 {
        addr := Balloc();
        if addr != 0 {
          AddEntryFills(g, s, inum, j, addr);
          ghost var s1 := Now();
          TrackedHeld(g, s, s1, logged, {inum});
          blocks := blocks[ind := SetWord(blocks[ind], j, addr)];
          ghost var peak1, logged1 := peak, logged;
          LogWrite(ind);
          PeakedTwice(old(peak), old(logged), peak1, logged1, peak, logged);
          TrackedBlock(g, s, s1, Now(), logged1, ind, {inum});
          ThreeLogged(old(logged), addr, BitmapBlock(addr), ind);
          assert s.blocks[addr := Zeros()][ind] == s.blocks[ind];
          assert Now() == AddEntry(s, inum, j, addr);
          WordSet(s.blocks[ind], j, addr, j);
          SlotEntry(blocks, inodes[inum], j);
        }
      }
    }

    /** itrunc: no block of the file is marked or referred to any more; nothing else changes. */
    method Itrunc(inum: int)
      requires Ok(g, Now()) && inum in inodes
      modifies this`blocks, this`used, this`inodes, this`logged, this`peak
      ensures Ok(g, Now()) && blocks == old(blocks) && inodes == old(inodes)[inum := Inode(NoAddrs(), 0)]
      ensures Tracked(g, old(Now()), Now(), logged, {})
      ensures forall b :: 0 <= b < g.size ==> (used[b] <==> old(used)[b] && !RefersTo(g, old(Now()), inum, b))
    {
      hide Refs, Owned, SlotOf, Tracked, BitmapOf, InodeBlock;
      ghost var s0 := Now();
      TrackedSelf(g, s0, logged, {inum});
      ShapeInode(g, s0, inum);
      var k := 0;
      while k < NDIRECT
        invariant 0 <= k <= NDIRECT && Ok(g, Now()) && blocks == s0.blocks
        invariant inum in inodes && |inodes[inum].addrs| == 13 && inodes[inum].size == s0.inodes[inum].size
        invariant forall l :: 0 <= l < k ==> inodes[inum].addrs[l] == 0
        invariant forall l :: k <= l < 13 ==> inodes[inum].addrs[l] == s0.inodes[inum].addrs[l]
        invariant inodes == s0.inodes[inum := inodes[inum]] && Tracked(g, s0, Now(), logged, {inum})
      {
        ghost var s, logged1 := Now(), logged;
        if inodes[inum].addrs[k] != 0 {
          ClearAddrOk(g, s, inum, k);
          Bfree(inodes[inum].addrs[k]);
          ghost var s1 := Now();
          TrackedHeld(g, s, s1, logged, {inum});
          TrackedTwice(g, s0, s, s1, logged1, logged, {inum});
          inodes := inodes[inum := inodes[inum].(addrs := inodes[inum].addrs[k := 0])];
          assert Now() == ClearAddr(s, inum, k);
          TrackedInode(g, s0, s1, Now(), logged, inum);
        }
        k := k + 1;
      }
      ghost var s1, logged1 := Now(), logged;
      TruncIndirect(inum);
      ghost var s2 := Now();
      TrackedTwice(g, s0, s1, s2, logged1, logged, {inum});
      inodes := inodes[inum := inodes[inum].(size := 0)];
      assert Now() == Emptied(s1, inum, used) == Emptied(s0, inum, used);
      TrackedInode(g, s0, s2, Now(), logged, inum);
      LogWrite(InodeBlock(g, inum));
      EmptiedUsed(g, s0, Now(), inum);
    }

    /** itrunc's loop over the indirect block. */
    method TruncIndirect(inum: int)
      requires Ok(g, Now()) && inum in inodes && |inodes[inum].addrs| == 13
      requires forall k :: 0 <= k < 12 ==> inodes[inum].addrs[k] == 0
      modifies this`blocks, this`used, this`inodes, this`logged, this`peak
      ensures blocks == old(blocks) && inodes == old(inodes)[inum := old(inodes)[inum].(addrs := NoAddrs())]
      ensures Ok(g, Emptied(old(Now()), inum, used))
      ensures Tracked(g, old(Now()), Now(), logged, {inum}) && old(logged) <= logged
    {
      hide Refs, Owned, SlotOf, Tracked, BitmapOf;
      ghost var s := Now();
      TrackedSelf(g, s, logged, {inum});
      ghost var refs := Refs(g, s);
      EmptiedRefs(g, s, inum, used);
      MinusNext(refs, inum, 0);
      if inodes[inum].addrs[12] != 0 {
        var ind := inodes[inum].addrs[12];
        SlotDirect(blocks, inodes[inum], 12);
        SlotIsRef(g, s, inum, 12);
        var j := 0;
        while j < NINDIRECT
          invariant 0 <= j <= NINDIRECT && blocks == s.blocks && inodes == s.inodes && |used| == g.size
          invariant Owned(g, used, Minus(refs, inum, j))
          invariant Tracked(g, s, Now(), logged, {inum}) && old(logged) <= logged
        {
          MinusNext(refs, inum, j);
          RefsAt(g, s, Ref(inum, 13 + j));
          SlotEntry(blocks, inodes[inum], j);
          var a := Word(blocks[ind], j);
          if a != 0 {
            Released(g, used, Minus(refs, inum, j), Ref(inum, 13 + j));
            ghost var s1, logged1 := Now(), logged;
            Bfree(a);
            TrackedHeld(g, s1, Now(), logged, {inum});
            TrackedTwice(g, s, s1, Now(), logged1, logged, {inum});
          } else {
            NotThere(Minus(refs, inum, j), Ref(inum, 13 + j));
          }
          j := j + 1;
        }
        Released(g, used, Minus(refs, inum, NINDIRECT), Ref(inum, 12));
        ghost var s1, logged1 := Now(), logged;
        Bfree(ind);
        ghost var s2 := Now();
        TrackedHeld(g, s1, s2, logged, {inum});
        TrackedTwice(g, s, s1, s2, logged1, logged, {inum});
        inodes := inodes[inum := inodes[inum].(addrs := inodes[inum].addrs[12 := 0])];
        TrackedInode(g, s, s2, Now(), logged, inum);
        EmptiedRefs(g, s, inum, used);
      } else {
        NoEntries(g, s, inum);
      }
      assert inodes[inum].addrs == NoAddrs();
    }
  }

  lemma NotThere(refs: map<Ref, int>, r: Ref)
    requires r !in refs
    ensures refs - {r} == refs
  {
  }

  /** Without an indirect block there are no entries to free. */
  lemma NoEntries(g: Geometry, s: Fs, i: int)
    requires Shape(g, s) && i in s.inodes && s.inodes[i].addrs[12] == 0
    ensures Minus(Refs(g, s), i, NINDIRECT) - {Ref(i, 12)} == Refs(g, s)
  {
    var c := Minus(Refs(g, s), i, NINDIRECT) - {Ref(i, 12)};
    forall q: Ref | q in Refs(g, s) ensures q in c {
      RefsAt(g, s, q);
      hide Refs;
      assert q == Ref(q.inum, q.slot);
    }
  }

  /** Some slot of file i refers to block b. */
  ghost predicate RefersTo(g: Geometry, s: Fs, i: int, b: int)
    requires Shape(g, s)
  {
    exists k :: 0 <= k < SLOTS && i in s.inodes && b != 0 && SlotOf(s.blocks, s.inodes[i], k) == b
  }

  /** Ownership before and after leaves no choice which blocks are marked. */
  lemma EmptiedUsed(g: Geometry, s: Fs, s': Fs, i: int)
    requires Ok(g, s) && Ok(g, s') && i in s.inodes && s' == Emptied(s, i, s'.used)
    ensures forall b :: 0 <= b < g.size ==> (s'.used[b] <==> s.used[b] && !RefersTo(g, s, i, b))
  {
    forall b | 0 <= b < g.size ensures s'.used[b] <==> s.used[b] && !RefersTo(g, s, i, b) {
      if b >= g.nmeta {
        if s'.used[b] { StillUsed(g, s, s', i, b); }
        if s.used[b] && !RefersTo(g, s, i, b) { KeepsUse(g, s, s', i, b); }
      } else if RefersTo(g, s, i, b) {
        var k :| 0 <= k < SLOTS && SlotOf(s.blocks, s.inodes[i], k) == b;
        SlotIsRef(g, s, i, k);
      }
    }
  }

  lemma StillUsed(g: Geometry, s: Fs, s': Fs, i: int, b: int)
    requires Ok(g, s) && Ok(g, s') && i in s.inodes && s' == Emptied(s, i, s'.used)
    requires g.nmeta <= b < g.size && s'.used[b]
    ensures s.used[b] && !RefersTo(g, s, i, b)
  {
    assert Referred(Refs(g, s'), b);
    var r :| r in Refs(g, s') && Refs(g, s')[r] == b;
    RefsAt(g, s', r);
    hide Refs, Owned;
    assert r.inum != i;
    SlotIsRef(g, s, r.inum, r.slot);
    forall k | 0 <= k < SLOTS && SlotOf(s.blocks, s.inodes[i], k) == b ensures false {
      SlotsApart(g, s, r.inum, r.slot, i, k);
    }
  }

  lemma KeepsUse(g: Geometry, s: Fs, s': Fs, i: int, b: int)
    requires Ok(g, s) && Ok(g, s') && i in s.inodes && s' == Emptied(s, i, s'.used) && g.nmeta <= b < g.size
    requires s.used[b] && !RefersTo(g, s, i, b)
    ensures s'.used[b]
  {
    assert Referred(Refs(g, s), b);
    var r :| r in Refs(g, s) && Refs(g, s)[r] == b;
    RefsAt(g, s, r);
    hide Refs, Owned;
    assert r.inum != i;
    assert SlotOf(s'.blocks, s'.inodes[r.inum], r.slot) == b;
    SlotIsRef(g, s', r.inum, r.slot);
  }

  lemma Metadata(g: Geometry, s: Fs)
    requires Ok(g, s)
    ensures 0 < g.nmeta && |s.used| == g.size && forall b :: 0 <= b < g.nmeta ==> b < g.size && s.used[b]
  {
  }

  /** What the parts of bmap log, together. */
  lemma NewDirect(g: Geometry, s: Fs, s': Fs, i: int, bn: int)
    requires i in s.inodes && |s.inodes[i].addrs| == 13 && i in s'.inodes
    requires |s'.inodes[i].addrs| == 13 && 0 <= bn < NDIRECT
    requires s'.inodes[i].addrs[12] == s.inodes[i].addrs[12]
    ensures NewLog(g, s, s', i, bn) ==
      if s.inodes[i].addrs[bn] == 0 && s'.inodes[i].addrs[bn] != 0
      then {s'.inodes[i].addrs[bn], BitmapOf(g, s'.inodes[i].addrs[bn])} else {}
  {
  }

  lemma NewIndirect(g: Geometry, s: Fs, s1: Fs, s': Fs, i: int, bn: int)
    requires i in s.inodes && |s.inodes[i].addrs| == 13 && i in s1.inodes
    requires i in s'.inodes && |s'.inodes[i].addrs| == 13
    requires NDIRECT <= bn < MAXFILE && s1.inodes[i] == s'.inodes[i]
    requires s1.blocks == s'.blocks || s'.inodes[i].addrs[12] != 0
    requires BlockOf(s, i, bn) == SlotOf(s1.blocks, s1.inodes[i], bn + 1)
    ensures var a, ind := BlockOf(s', i, bn), s'.inodes[i].addrs[12];
      NewLog(g, s, s', i, bn) == (if s.inodes[i].addrs[12] == 0 && ind != 0 then {ind, BitmapOf(g, ind)} else {})
        + (if SlotOf(s1.blocks, s1.inodes[i], bn + 1) == 0 && a != 0 then {a, BitmapOf(g, a), ind} else {})
  {
  }

  lemma OnlySlotWider(g: Geometry, s: Fs, s': Fs, i: int, k: int)
    requires Shape(g, s) && Shape(g, s') && OnlySlot(g, s, s', i, 12)
    ensures OnlySlot(g, s, s', i, k)
  {
  }

  lemma EntryStays(g: Geometry, s: Fs, s': Fs, i: int, k: int)
    requires Shape(g, s) && Shape(g, s') && OnlySlot(g, s, s', i, 12) && i in s.inodes && 13 <= k < SLOTS
    ensures SlotOf(s'.blocks, s'.inodes[i], k) == SlotOf(s.blocks, s.inodes[i], k)
    ensures s.inodes[i].addrs[12] == 0 ==> SlotOf(s.blocks, s.inodes[i], k) == 0
    ensures s'.inodes[i].addrs[12] == 0 ==> SlotOf(s'.blocks, s'.inodes[i], k) == 0
  {
  }

  lemma IndirectBlock(g: Geometry, s: Fs, i: int)
    requires Ok(g, s) && i in s.inodes && |s.inodes[i].addrs| == 13 && s.inodes[i].addrs[12] != 0
    ensures var ind := s.inodes[i].addrs[12];
      && 0 < g.nmeta <= ind < g.size < 0x1_0000_0000 && 0 <= ind < |s.used| && s.used[ind]
      && ind in s.blocks && |s.blocks[ind]| == BSIZE
  {
    hide Refs, Owned, SlotOf;
    SlotDirect(s.blocks, s.inodes[i], 12);
    SlotIsRef(g, s, i, 12);
  }

  lemma SlotEntry(blocks: map<int, seq<int>>, ip: Inode, j: int)
    requires |ip.addrs| == 13 && ip.addrs[12] != 0 && ip.addrs[12] in blocks
    requires |blocks[ip.addrs[12]]| == BSIZE && 0 <= j < NINDIRECT
    ensures SlotOf(blocks, ip, 13 + j) == Word(blocks[ip.addrs[12]], j)
  {
  }
}
