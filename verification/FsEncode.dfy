/**
  The other direction of FsImage: a disk for every state of the file system, and what filewrite
  does seen from there.
 */
module FsEncode {
  import opened Blocks
  import opened FsState
  import opened FsCode
  import opened FileIo
  import opened FsImage
  import opened CrashSafe

  /** Metadata as mkfs lays it out: inode blocks and bitmap blocks apart, before the data. */
  predicate Sane(g: Geometry, n: int) {
    && 0 < g.nmeta <= g.size && 1 <= n
    && 0 <= g.inodestart && g.inodestart + (n - 1) / IPB < g.bmapstart && g.bmapstart + (g.size - 1) / BPB < g.nmeta
  }

  /** Bytes are bytes, and sizes and addresses are uints. */
  ghost predicate Ranged(g: Geometry, s: Fs) {
    && (forall b, x :: g.nmeta <= b < g.size && b in s.blocks && 0 <= x < |s.blocks[b]| ==> 0 <= s.blocks[b][x] < 0x100)
    && (forall i :: i in s.inodes ==> InodeRanged(s.inodes[i]))
  }

  ghost predicate InodeRanged(ip: Inode) {
    && |ip.addrs| == 13 && 0 <= ip.size < 0x1_0000_0000
    && (forall k :: 0 <= k < 13 ==> 0 <= ip.addrs[k] < 0x1_0000_0000)
  }

  // ---------------------------------------------------------------- encoding

  function Bit(used: seq<bool>, b: int): int {
    if 0 <= b < |used| && used[b] then 1 else 0
  }

  /** The byte with the marks of the eight blocks from b on. */
  function MarkByte(used: seq<bool>, b: int): int {
    Bit(used, b) + 2 * Bit(used, b + 1) + 4 * Bit(used, b + 2) + 8 * Bit(used, b + 3)
    + 16 * Bit(used, b + 4) + 32 * Bit(used, b + 5) + 64 * Bit(used, b + 6) + 128 * Bit(used, b + 7)
  }

  function MarkWord(used: seq<bool>, b: int): int {
    MarkByte(used, b) + 0x100 * MarkByte(used, b + 8)
    + 0x1_0000 * MarkByte(used, b + 16) + 0x100_0000 * MarkByte(used, b + 24)
  }

  function InodeWord(s: Fs, i: int, f: int): int {
    if i !in s.inodes || |s.inodes[i].addrs| != 13 then 0
    else if f == 2 then s.inodes[i].size else if 3 <= f < 16 then s.inodes[i].addrs[f - 3] else 0
  }

  function DataBlock(c: seq<int>): Block {
    if |c| != BSIZE then ZeroBlock() else seq(256, w requires 0 <= w < 256 => Word(c, w))
  }

  function MarkBlock(used: seq<bool>, at: int): Block {
    seq(256, w => MarkWord(used, at + 32 * w))
  }

  function InodesBlock(s: Fs, first: int): Block {
    seq(256, w => InodeWord(s, first + w / 16, w % 16))
  }

  /** What block b of the disk has to hold. */
  function EncodeBlock(g: Geometry, s: Fs, b: int): Block {
    if g.nmeta <= b < g.size then (if b in s.blocks then DataBlock(s.blocks[b]) else ZeroBlock())
    else if g.bmapstart <= b < g.nmeta then MarkBlock(s.used, (b - g.bmapstart) * BPB)
    else if g.inodestart <= b < g.bmapstart then InodesBlock(s, (b - g.inodestart) * IPB)
    else ZeroBlock()
  }

  function Encode(g: Geometry, s: Fs): Image {
    map b | 0 <= b < g.size :: EncodeBlock(g, s, b)
  }

  // ---------------------------------------------------------------- round trip

  lemma LowByte(x: int, a: int, y: int)
    requires 0 <= a < 0x100 && x == a + 0x100 * y
    ensures x % 0x100 == a && x / 0x100 == y
  {
  }

  lemma BytesBack(b0: int, b1: int, b2: int, b3: int, k: int)
    requires 0 <= b0 < 0x100 && 0 <= b1 < 0x100 && 0 <= b2 < 0x100 && 0 <= b3 < 0x100 && 0 <= k < 4
    ensures ByteOf(b0 + 0x100 * b1 + 0x1_0000 * b2 + 0x100_0000 * b3, k) ==
      if k == 0 then b0 else if k == 1 then b1 else if k == 2 then b2 else b3
  {
    var x := b0 + 0x100 * b1 + 0x1_0000 * b2 + 0x100_0000 * b3;
    LowByte(x, b0, b1 + 0x100 * b2 + 0x1_0000 * b3);
    LowByte(x / 0x100, b1, b2 + 0x100 * b3);
    LowByte(x / 0x100 / 0x100, b2, b3);
    LowByte(b3, b3, 0);
    assert x / 0x1_0000 == x / 0x100 / 0x100 && x / 0x100_0000 == b3;
  }

  lemma DataBack(c: seq<int>)
    requires |c| == BSIZE && forall x :: 0 <= x < BSIZE ==> 0 <= c[x] < 0x100
    ensures BytesOf(DataBlock(c)) == c
  {
    var r := BytesOf(DataBlock(c));
    forall x | 0 <= x < BSIZE ensures r[x] == c[x] {
      var j, k := x / 4, x % 4;
      assert r[x] == ByteOf(Word(c, j), k);
      BytesBack(c[4 * j], c[4 * j + 1], c[4 * j + 2], c[4 * j + 3], k);
    }
  }

  lemma Halve(x: int, a: int, y: int)
    requires 0 <= a <= 1 && x == a + 2 * y
    ensures x % 2 == a && x / 2 == y
  {
  }

  lemma BitsBack(a: int, b: int, c: int, d: int, e: int, f: int, g: int, h: int)
    requires 0 <= a <= 1 && 0 <= b <= 1 && 0 <= c <= 1 && 0 <= d <= 1
    requires 0 <= e <= 1 && 0 <= f <= 1 && 0 <= g <= 1 && 0 <= h <= 1
    ensures var x := a + 2 * b + 4 * c + 8 * d + 16 * e + 32 * f + 64 * g + 128 * h;
      && x % 2 == a && x / 2 % 2 == b && x / 4 % 2 == c && x / 8 % 2 == d
      && x / 16 % 2 == e && x / 32 % 2 == f && x / 64 % 2 == g && x / 128 % 2 == h
  {
    var x := a + 2 * b + 4 * c + 8 * d + 16 * e + 32 * f + 64 * g + 128 * h;
    var x4 := e + 2 * f + 4 * g + 8 * h;
    Halve(x, a, b + 2 * c + 4 * d + 8 * x4);
    Halve(x / 2, b, c + 2 * d + 4 * x4);
    Halve(x / 2 / 2, c, d + 2 * x4);
    Halve(x / 2 / 2 / 2, d, x4);
    assert x / 4 == x / 2 / 2 && x / 8 == x / 2 / 2 / 2 && x / 16 == x4;
    Halve(x4, e, f + 2 * g + 4 * h);
    Halve(x4 / 2, f, g + 2 * h);
    Halve(x4 / 2 / 2, g, h);
    Halve(h, h, 0);
    assert x / 32 == x4 / 2 && x / 64 == x4 / 2 / 2 && x / 128 == h;
  }

  lemma MarkByteRange(used: seq<bool>, b: int)
    ensures 0 <= MarkByte(used, b) < 0x100
  {
  }

  lemma MarkBack(used: seq<bool>, b: int, k: int)
    requires 0 <= k < 8
    ensures MarkByte(used, b) / Power(k) % 2 == Bit(used, b + k)
  {
    var x := MarkByte(used, b);
    BitsBack(Bit(used, b), Bit(used, b + 1), Bit(used, b + 2), Bit(used, b + 3),
      Bit(used, b + 4), Bit(used, b + 5), Bit(used, b + 6), Bit(used, b + 7));
    assert x / 1 % 2 == Bit(used, b) && x / 2 % 2 == Bit(used, b + 1) && x / 4 % 2 == Bit(used, b + 2);
    assert x / 8 % 2 == Bit(used, b + 3) && x / 16 % 2 == Bit(used, b + 4) && x / 32 % 2 == Bit(used, b + 5);
    assert x / 64 % 2 == Bit(used, b + 6) && x / 128 % 2 == Bit(used, b + 7);
    hide Bit, MarkByte;
  }

  /** Byte x of a bitmap block has the marks of the blocks from at + 8 * x on. */
  lemma MarkBlockByte(used: seq<bool>, at: int, x: int)
    requires 0 <= x < BSIZE
    ensures BytesOf(MarkBlock(used, at))[x] == MarkByte(used, at + 8 * x)
  {
    var j, k := x / 4, x % 4;
    var b := at + 32 * j;
    assert BytesOf(MarkBlock(used, at))[x] == ByteOf(MarkWord(used, b), k);
    MarkByteRange(used, b);
    MarkByteRange(used, b + 8);
    MarkByteRange(used, b + 16);
    MarkByteRange(used, b + 24);
    hide MarkByte, ByteOf;
    BytesBack(MarkByte(used, b), MarkByte(used, b + 8), MarkByte(used, b + 16), MarkByte(used, b + 24), k);
    assert at + 8 * x == b + 8 * k;
  }

  lemma MarkedBack(g: Geometry, n: int, s: Fs, c: int)
    requires Sane(g, n) && Whole(g, n, s) && 0 <= c < g.size
    ensures Marked(g, Encode(g, s), c) <==> s.used[c]
  {
    var b, x := BitmapOf(g, c), c % BPB / 8;
    assert g.bmapstart <= b < g.nmeta;
    assert BlockAt(Encode(g, s), b) == MarkBlock(s.used, (b - g.bmapstart) * BPB);
    MarkBlockByte(s.used, (b - g.bmapstart) * BPB, x);
    assert (b - g.bmapstart) * BPB + 8 * x + c % 8 == c by { Position(c); }
    MarkBack(s.used, (b - g.bmapstart) * BPB + 8 * x, c % 8);
  }

  lemma Position(c: int)
    requires 0 <= c
    ensures c / BPB * BPB + 8 * (c % BPB / 8) + c % 8 == c
  {
  }

  lemma InodeBack(g: Geometry, n: int, s: Fs, i: int)
    requires Sane(g, n) && Whole(g, n, s) && Ranged(g, s) && 1 <= i < n
    ensures InodeAt(g, Encode(g, s), i) == s.inodes[i]
  {
    var b := InodeBlock(g, i);
    assert g.inodestart <= b < g.bmapstart;
    var c := InodesBlock(s, (b - g.inodestart) * IPB);
    assert BlockAt(Encode(g, s), b) == c;
    assert InodeRanged(s.inodes[i]);
    hide Ranged, Whole, Encode, InodesBlock;
    forall f | 0 <= f < 16 ensures c[i % IPB * 16 + f] == InodeWord(s, i, f) { FieldOf(g, s, i, f); }
    FieldsBack(s, i, c, i % IPB * 16, InodeAt(g, Encode(g, s), i));
  }

  lemma FieldOf(g: Geometry, s: Fs, i: int, f: int)
    requires 0 <= i && 0 <= f < 16
    ensures InodesBlock(s, (InodeBlock(g, i) - g.inodestart) * IPB)[i % IPB * 16 + f] == InodeWord(s, i, f)
  {
    Field(i % IPB, f);
    assert (InodeBlock(g, i) - g.inodestart) * IPB + i % IPB == i;
    hide InodeWord;
  }

  lemma FieldsBack(s: Fs, i: int, c: Block, at: int, r: Inode)
    requires i in s.inodes && InodeRanged(s.inodes[i]) && 0 <= at && at + 16 <= 256
    requires forall f :: 0 <= f < 16 ==> c[at + f] == InodeWord(s, i, f)
    requires |r.addrs| == 13 && r.size == UintOf(c[at + 2]) && forall k :: 0 <= k < 13 ==>
      r.addrs[k] == UintOf(c[at + 3 + k])
    ensures r == s.inodes[i]
  {
    var ip := s.inodes[i];
    assert c[at + 2] == InodeWord(s, i, 2) == ip.size;
    forall k | 0 <= k < 13 ensures r.addrs[k] == ip.addrs[k] {
      assert c[at + (3 + k)] == InodeWord(s, i, 3 + k);
    }
  }

  lemma Field(j: int, f: int)
    requires 0 <= j < 16 && 0 <= f < 16
    ensures (j * 16 + f) / 16 == j && (j * 16 + f) % 16 == f
  {
  }

  /** Every state has a disk that holds it: decoding undoes encoding. */
  lemma EncodeHolds(g: Geometry, n: int, s: Fs)
    requires Sane(g, n) && Whole(g, n, s) && Ranged(g, s)
    ensures Holds(g, n, Encode(g, s), s)
  {
    var m := Encode(g, s);
    hide Marked, InodeAt, BytesOf, DataBlock;
    forall b {:trigger BlockHolds(g, n, m, s, b)} ensures BlockHolds(g, n, m, s, b) {
      if g.nmeta <= b < g.size { DataBack(s.blocks[b]); }
      forall c {:trigger Marked(g, m, c)} | 0 <= c < g.size && BitmapOf(g, c) == b
        ensures s.used[c] <==> Marked(g, m, c)
      {
        MarkedBack(g, n, s, c);
      }
      forall i {:trigger InodeAt(g, m, i)} | 1 <= i < n && InodeBlock(g, i) == b
        ensures s.inodes[i] == InodeAt(g, m, i)
      {
        InodeBack(g, n, s, i);
      }
    }
  }

  // ---------------------------------------------------------------- operations

  /** A block that was not logged has to hold what it held. */
  lemma UnloggedSame(g: Geometry, n: int, s: Fs, s': Fs, logged: set<int>, b: int)
    requires Sane(g, n) && Whole(g, n, s) && Whole(g, n, s') && Tracked(g, s, s', logged, {}) && b !in logged
    ensures EncodeBlock(g, s', b) == EncodeBlock(g, s, b)
  {
    if g.nmeta <= b < g.size {
    } else if g.bmapstart <= b < g.nmeta {
      MarksSame(g, s, s', logged, b);
    } else if g.inodestart <= b < g.bmapstart {
      InodesSame(g, s, s', logged, b);
    }
  }

  lemma BitSame(g: Geometry, s: Fs, s': Fs, logged: set<int>, c: int)
    requires Tracked(g, s, s', logged, {}) && BitmapOf(g, c) !in logged
    ensures Bit(s'.used, c) == Bit(s.used, c)
  {
  }

  lemma MarksSame(g: Geometry, s: Fs, s': Fs, logged: set<int>, b: int)
    requires Tracked(g, s, s', logged, {}) && b !in logged
    ensures MarkBlock(s'.used, (b - g.bmapstart) * BPB) == MarkBlock(s.used, (b - g.bmapstart) * BPB)
  {
    var at := (b - g.bmapstart) * BPB;
    hide Tracked, Bit, MarkWord;
    forall c | at <= c < at + BPB ensures Bit(s'.used, c) == Bit(s.used, c) {
      assert BitmapOf(g, c) == b;
      BitSame(g, s, s', logged, c);
    }
    forall w | 0 <= w < 256 ensures MarkWord(s'.used, at + 32 * w) == MarkWord(s.used, at + 32 * w) {
      MarkWordSame(s.used, s'.used, at + 32 * w);
    }
  }

  lemma MarkWordSame(used: seq<bool>, used': seq<bool>, b: int)
    requires forall c :: b <= c < b + 32 ==> Bit(used', c) == Bit(used, c)
    ensures MarkWord(used', b) == MarkWord(used, b)
  {
    hide Bit, MarkByte;
    MarkByteSame(used, used', b);
    MarkByteSame(used, used', b + 8);
    MarkByteSame(used, used', b + 16);
    MarkByteSame(used, used', b + 24);
  }

  lemma MarkByteSame(used: seq<bool>, used': seq<bool>, b: int)
    requires forall c :: b <= c < b + 8 ==> Bit(used', c) == Bit(used, c)
    ensures MarkByte(used', b) == MarkByte(used, b)
  {
    hide Bit;
  }

  lemma InodesSame(g: Geometry, s: Fs, s': Fs, logged: set<int>, b: int)
    requires Tracked(g, s, s', logged, {}) && b !in logged && g.inodestart <= b
    ensures InodesBlock(s', (b - g.inodestart) * IPB) == InodesBlock(s, (b - g.inodestart) * IPB)
  {
    var first := (b - g.inodestart) * IPB;
    forall w | 0 <= w < 256 ensures InodeWord(s', first + w / 16, w % 16) == InodeWord(s, first + w / 16, w % 16) {
      assert InodeBlock(g, first + w / 16) == b;
    }
  }

  lemma EncodeCarries(g: Geometry, n: int, s: Fs, s': Fs, logged: set<int>)
    requires Sane(g, n) && Holds(g, n, Encode(g, s), s) && Holds(g, n, Encode(g, s'), s')
    requires Tracked(g, s, s', logged, {})
    ensures Carried(g, n, Encode(g, s), s, Encode(g, s'), s', logged)
  {
    var m, m' := Encode(g, s), Encode(g, s');
    hide EncodeBlock, Tracked, BlockHolds, Whole;
    forall b | b !in logged ensures BlockAt(m', b) == BlockAt(m, b) { UnloggedSame(g, n, s, s', logged, b); }
  }

  /** An operation that logs what it changes is a whole operation on the disk. */
  lemma OperationIsWhole(g: Geometry, n: int, o: Operation)
    requires Sane(g, n) && Whole(g, n, o.before) && Whole(g, n, o.after) && Ranged(g, o.before) && Ranged(g, o.after)
    requires Tracked(g, o.before, o.after, o.logged, {}) && FilesOk(g, o.after)
    ensures WholeOp(g, n, Encode(g, o.before), Encode(g, o.after))
  {
    hide Encode, FilesOk, Tracked, Holds, Whole, Ranged, Carried;
    EncodeHolds(g, n, o.before);
    EncodeHolds(g, n, o.after);
    EncodeCarries(g, n, o.before, o.after, o.logged);
  }

  /** The disks between the operations from number k on. */
  ghost function Disks(g: Geometry, history: seq<Operation>, k: int, s0: Fs): seq<Image>
    requires 0 <= k
  {
    if |history| <= k then [Encode(g, s0)]
    else Disks(g, history[..|history| - 1], k, s0) + [Encode(g, history[|history| - 1].after)]
  }

  ghost predicate Writable(g: Geometry, n: int, o: Operation) {
    Whole(g, n, o.before) && Whole(g, n, o.after) && Ranged(g, o.before) && Ranged(g, o.after)
  }

  /**
    The operations that filewrite makes of one write are whole operations, one after the other:
    a crash between them, or in one of them, leaves the files in order.
   */
  lemma {:induction false} TraceIsPath(g: Geometry, n: int, history: seq<Operation>, k: int, s0: Fs, s: Fs)
    requires Sane(g, n) && 0 <= k <= |history| && Traced(g, history, k, s0, s)
    requires forall i :: k <= i < |history| ==> Writable(g, n, history[i])
    ensures Path(g, n, Disks(g, history, k, s0), Encode(g, s0), Encode(g, s))
    decreases |history|
  {
    hide FilesOk, Tracked, Writable, WholeOp, Encode;
    if |history| > k {
      var h, o := history[..|history| - 1], history[|history| - 1];
      TraceIsPath(g, n, h, k, s0, o.before);
      OperationFits(g, n, o);
      PathNext(g, n, Disks(g, h, k, s0), Encode(g, s0), Encode(g, o.before), Encode(g, o.after));
    }
  }

  lemma OperationFits(g: Geometry, n: int, o: Operation)
    requires Sane(g, n) && Writable(g, n, o) && Tracked(g, o.before, o.after, o.logged, {}) && FilesOk(g, o.after)
    ensures WholeOp(g, n, Encode(g, o.before), Encode(g, o.after))
  {
    OperationIsWhole(g, n, o);
  }

  lemma PathNext(g: Geometry, n: int, ms: seq<Image>, m: Image, m1: Image, m2: Image)
    requires Path(g, n, ms, m, m1) && WholeOp(g, n, m1, m2)
    ensures Path(g, n, ms + [m2], m, m2)
  {
    hide WholeOp;
    var ms' := ms + [m2];
    forall i {:trigger OpAt(g, n, ms', i)} | 0 <= i < |ms'| - 1 ensures OpAt(g, n, ms', i) {
      if i < |ms| - 1 { assert OpAt(g, n, ms, i); }
    }
  }
}
