/**
  A full disk with five free blocks far apart: the disk on which ChunkExtremes writes.

  Its metadata is laid out as mkfs does it, with the root directory in inode 1.  Its files have
  every block below their size and no others, in the order in which balloc hands blocks out to a
  file as it is written: consecutive, with the indirect block between the direct ones and its
  entries.  A file removed since had one block in 8192.  File 2 is the one that will be written
  to.  The bytes of all files are zero.
 */
module WriteDisk {
  import opened Params
  import opened FsState
  import opened FsCode
  import opened WriteBudget
  import opened ChunkExtremes

  const FILES := 122
  const LAST := 124                    // inodes 3 to LAST are the full files
  const NMETA := 51                    // boot, superblock, 31 log, 13 inode and 5 bitmap blocks
  const DIRECTORY := 2                 // blocks of the root directory

  /** How many blocks are in use, if file 2 has h of them. */
  function Count(h: nat): int {
    DIRECTORY + h + FILES * SLOTS
  }

  function Layout(h: nat): Geometry {
    Geometry(NMETA + Count(h) + 5, 33, 46, NMETA)
  }

  predicate IsFree(b: int) {
    b % 8192 == 100
  }

  /** Block number n of those in use. */
  function Nth(n: int): int {
    if n < 49 then NMETA + n else 101 + (n - 49) + (n - 49) / 8191
  }

  /** Which one block b is. */
  function Rank(b: int): int {
    if b < 100 then b - NMETA else 49 + (b - 101) - (b - 101) / 8192
  }

  lemma RankOfNth(n: int)
    requires n >= 0
    ensures Rank(Nth(n)) == n && !IsFree(Nth(n)) && Nth(n) >= NMETA
  {
    if n >= 49 { AcrossFree(n - 49); }
  }

  lemma AcrossFree(m: int)
    requires m >= 0
    ensures (m + m / 8191) / 8192 == m / 8191 && (m + m / 8191) % 8192 == m % 8191
  {
    var q, r := m / 8191, m % 8191;
    assert m + q == 8192 * q + r;
  }

  lemma NthOfRank(b: int)
    requires b >= NMETA && !IsFree(b)
    ensures Nth(Rank(b)) == b && Rank(b) >= 0
  {
    if b > 100 {
      var q, r := (b - 101) / 8192, (b - 101) % 8192;
      assert r != 8191;
      assert Rank(b) - 49 == 8191 * q + r;
    }
  }

  lemma NthBelow(h: nat, n: int)
    requires 0 <= n < Count(h) && h <= 11
    ensures Nth(n) < Layout(h).size
  {
  }

  lemma RankBelow(h: nat, b: int)
    requires 10 <= h <= 11 && NMETA <= b < Layout(h).size && !IsFree(b)
    ensures Rank(b) < Count(h)
  {
  }

  /** The first block of file i, by number of those in use, and how many slots it has. */
  function First(h: nat, i: int): int {
    if i == 1 then 0 else if i == 2 then DIRECTORY else DIRECTORY + h + (i - 3) * SLOTS
  }

  function Slots(h: nat, i: int): int {
    if i == 1 then DIRECTORY else if i == 2 then h else SLOTS
  }

  /** The block of slot k of file i; 0 for none. */
  function Filling(h: nat, i: int, k: int): int {
    if k < Slots(h, i) then Nth(First(h, i) + k) else 0
  }

  /** Byte x of the indirect block of file i. */
  function Entry(h: nat, i: int, x: int): int {
    var a := Filling(h, i, 13 + x / 4);
    if x % 4 == 0 then a % 0x100 else if x % 4 == 1 then a / 0x100 % 0x100
    else if x % 4 == 2 then a / 0x1_0000 % 0x100 else a / 0x100_0000
  }

  /** The file that has number n of the blocks in use. */
  function Owner(h: nat, n: int): int {
    if n < DIRECTORY then 1 else if n < DIRECTORY + h then 2 else 3 + (n - DIRECTORY - h) / SLOTS
  }

  function Content(h: nat, b: int): (c: seq<int>)
    ensures |c| == BSIZE
  {
    var i := Owner(h, Rank(b));
    if b >= NMETA && i >= 3 && Rank(b) == First(h, i) + 12 then seq(1024, x => Entry(h, i, x)) else Zeros()
  }

  /** A directory of 2 + FILES + 1 entries of 16 bytes, the file to write to, and full files. */
  function Size(i: int): int {
    if i == 1 then 2000 else if i == 2 then 10241 else MAXFILE * BSIZE
  }

  function File(h: nat, i: int): (ip: Inode)
    ensures InodeOk(ip)
  {
    Inode(seq(13, k => Filling(h, i, k)), Size(i))
  }

  function Disk(h: nat): Fs {
    Fs(map b | 0 <= b < Layout(h).size :: Content(h, b),
       seq(NMETA + DIRECTORY + h + FILES * 269 + 5, b => !IsFree(b)),
       map i | 1 <= i <= LAST :: File(h, i))
  }

  lemma DiskShape(h: nat)
    requires h <= 11
    ensures Shape(Layout(h), Disk(h))
  {
  }

  /** A slot has a place among the blocks in use, and the file is the owner of that place. */
  lemma PlaceOf(h: nat, i: int, k: int)
    requires 10 <= h <= 11 && 1 <= i <= LAST && 0 <= k < Slots(h, i)
    ensures 0 <= First(h, i) + k < Count(h) && Owner(h, First(h, i) + k) == i
  {
  }

  lemma OwnerHas(h: nat, n: int)
    requires 10 <= h <= 11 && 0 <= n < Count(h)
    ensures var i := Owner(h, n); 1 <= i <= LAST && 0 <= n - First(h, i) < Slots(h, i) <= SLOTS
  {
  }

  lemma FillingIs(h: nat, i: int, k: int)
    requires 10 <= h <= 11 && 1 <= i <= LAST && 0 <= k < Slots(h, i)
    ensures var b := Filling(h, i, k);
      NMETA <= b < Layout(h).size && !IsFree(b) && Rank(b) == First(h, i) + k && Owner(h, Rank(b)) == i
  {
    PlaceOf(h, i, k);
    RankOfNth(First(h, i) + k);
    NthBelow(h, First(h, i) + k);
  }

  lemma EntryBytes(h: nat, i: int, j: int)
    requires 0 <= j
    ensures var a := Filling(h, i, 13 + j);
      && Entry(h, i, 4 * j) == a % 0x100 && Entry(h, i, 4 * j + 1) == a / 0x100 % 0x100
      && Entry(h, i, 4 * j + 2) == a / 0x1_0000 % 0x100 && Entry(h, i, 4 * j + 3) == a / 0x100_0000
  {
    hide Filling;
  }

  lemma EntryWord(h: nat, i: int, j: int)
    requires 10 <= h <= 11 && 3 <= i <= LAST && 0 <= j < NINDIRECT
    ensures Word(Content(h, Filling(h, i, 12)), j) == Filling(h, i, 13 + j)
  {
    FillingIs(h, i, 12);
    FillingIs(h, i, 13 + j);
    EntryBytes(h, i, j);
    assert Layout(h).size < 0x1_0000_0000;
    hide Filling, Nth, Rank, Owner, First, Entry, Layout;
    assert Content(h, Filling(h, i, 12)) == seq(1024, x => Entry(h, i, x));
    Digits(Filling(h, i, 13 + j));
  }

  lemma SlotIs(h: nat, i: int, k: int)
    requires 10 <= h <= 11 && 1 <= i <= LAST && 0 <= k < SLOTS
    ensures i in Disk(h).inodes && SlotOf(Disk(h).blocks, Disk(h).inodes[i], k) == Filling(h, i, k)
  {
    if k >= 13 && i >= 3 {
      FillingIs(h, i, 12);
      EntryWord(h, i, k - 13);
    }
    hide Nth, Word, Content;
  }

  lemma DiskUsed(h: nat)
    ensures var g, used := Layout(h), Disk(h).used;
      && |used| == g.size && g.nmeta == NMETA
      && (forall b :: 0 <= b < g.size ==> (used[b] <==> !IsFree(b)))
      && (forall b :: 0 <= b < NMETA && b < g.size ==> used[b])
  {
  }

  ghost predicate IsRef(h: nat, refs: map<Ref, int>, r: Ref) {
    r in refs && 1 <= r.inum <= LAST && 0 <= r.slot < Slots(h, r.inum) && refs[r] == Filling(h, r.inum, r.slot)
  }

  lemma RefIs(h: nat, r: Ref)
    requires 10 <= h <= 11 && Shape(Layout(h), Disk(h)) && r in Refs(Layout(h), Disk(h))
    ensures IsRef(h, Refs(Layout(h), Disk(h)), r)
    ensures RefOk(Layout(h), Disk(h).used, Refs(Layout(h), Disk(h)), r)
  {
    RefsAt(Layout(h), Disk(h), r);
    SlotIs(h, r.inum, r.slot);
    DiskUsed(h);
    hide Refs, SlotOf, Shape, Disk;
    FillingIs(h, r.inum, r.slot);
  }

  lemma RefsApart(h: nat, refs: map<Ref, int>, r: Ref, q: Ref)
    requires 10 <= h <= 11 && IsRef(h, refs, r) && IsRef(h, refs, q) && refs[r] == refs[q]
    ensures r == q
  {
    FillingIs(h, r.inum, r.slot);
    FillingIs(h, q.inum, q.slot);
  }

  /** Every block in use was given to a slot. */
  lemma UsedIsReferred(h: nat, b: int)
    requires 10 <= h <= 11 && Shape(Layout(h), Disk(h)) && NMETA <= b < Layout(h).size && !IsFree(b)
    ensures Referred(Refs(Layout(h), Disk(h)), b)
  {
    NthOfRank(b);
    RankBelow(h, b);
    OwnerHas(h, Rank(b));
    var i := Owner(h, Rank(b));
    var r := Ref(i, Rank(b) - First(h, i));
    SlotIs(h, i, r.slot);
    RefsAt(Layout(h), Disk(h), r);
    hide Refs, SlotOf, Shape, Disk, Rank, Nth, First, Owner;
    assert Filling(h, i, r.slot) == b;
  }

  lemma DiskOk(h: nat)
    requires 10 <= h <= 11
    ensures Ok(Layout(h), Disk(h))
  {
    DiskShape(h);
    DiskUsed(h);
    hide Disk, Refs, Shape, Filling, RefOk, Referred, Layout, First, Slots;
    var g, s := Layout(h), Disk(h);
    var refs := Refs(g, s);
    forall r | r in refs ensures IsRef(h, refs, r) && RefOk(g, s.used, refs, r) { RefIs(h, r); }
    forall r, q | r in refs && q in refs && refs[r] == refs[q] ensures r == q { RefsApart(h, refs, r, q); }
    forall b | g.nmeta <= b < g.size && s.used[b] ensures Referred(refs, b) { UsedIsReferred(h, b); }
  }

  /** A file has exactly the slots its size calls for. */
  lemma SizeCovers(i: int, bn: int)
    requires 1 <= i <= LAST && 0 <= bn < MAXFILE
    ensures bn * BSIZE < Size(i) <==> DataSlot(bn) < Slots(11, i)
  {
  }

  lemma BlockIs(i: int, bn: int)
    requires 1 <= i <= LAST && 0 <= bn < MAXFILE
    ensures i in Disk(11).inodes && |Disk(11).inodes[i].addrs| == 13 && Disk(11).inodes[i].size == Size(i)
    ensures BlockOf(Disk(11), i, bn) != 0 <==> bn * BSIZE < Size(i)
  {
    SizeCovers(i, bn);
    SlotIs(11, i, DataSlot(bn));
    hide SlotOf, Nth, First;
    if bn * BSIZE < Size(i) { FillingIs(11, i, DataSlot(bn)); }
  }

  /** Every file has the blocks below its size, and no others. */
  ghost predicate Covered(s: Fs, i: int) {
    && i in s.inodes && InodeOk(s.inodes[i])
    && forall bn :: 0 <= bn < MAXFILE ==> (BlockOf(s, i, bn) != 0 <==> bn * BSIZE < s.inodes[i].size)
  }

  lemma DiskFiles()
    ensures FilesOk(Layout(11), Disk(11))
    ensures forall i :: i in Disk(11).inodes ==> Covered(Disk(11), i)
  {
    DiskOk(11);
    forall i | i in Disk(11).inodes ensures Covered(Disk(11), i) { FileCovered(i); }
    hide Ok, Disk, Layout, BlockOf;
  }

  lemma FileCovered(i: int)
    requires 1 <= i <= LAST
    ensures Covered(Disk(11), i)
  {
    DiskShape(11);
    BlockIs(i, 0);
    hide BlockOf, Disk, Layout, Size;
    forall bn | 0 <= bn < MAXFILE ensures BlockOf(Disk(11), i, bn) != 0 <==> bn * BSIZE < Disk(11).inodes[i].size {
      BlockIs(i, bn);
    }
  }

  const SPARE: seq<int> := [100, 8292, 16484, 24676, 32868]

  lemma DiskScattered(h: nat)
    requires 10 <= h <= 11
    ensures Scattered(Layout(h), Disk(h).used, SPARE, 33)
  {
  }

  /** There is a disk on which a chunk uses its whole budget. */
  method TightRun() returns (f: FileSystem)
    ensures fresh(f) && |f.logged| == MAXOPBLOCKS
  {
    DiskFiles();
    DiskScattered(11);
    f := new FileSystem(Layout(11), Disk(11));
    TightChunk(f, 2, seq(3072, i => 0), SPARE);
  }

  /** And one, with a hole in a file, on which a chunk overruns it. */
  method HoleRun() returns (f: FileSystem)
    ensures fresh(f) && |f.logged| > MAXOPBLOCKS
  {
    DiskOk(10);
    DiskScattered(10);
    f := new FileSystem(Layout(10), Disk(10));
    HoleChunk(f, 2, seq(3072, i => 0), SPARE);
  }
}
