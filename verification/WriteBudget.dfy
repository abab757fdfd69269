/**
  What one writei (fs.c) passes to log_write, and how much of it a chunk of filewrite
  (file.c) may cause.
 */
module WriteBudget {
  import opened Params
  import opened FsState
  import opened FsCode

  /** One round of writei: the disk block it wrote, and whether it had to be allocated. */
  datatype Visit = Visit(addr: int, isNew: bool)

  ghost function RoundLog(g: Geometry, e: Visit): set<int> {
    if e.isNew then {e.addr, BitmapOf(g, e.addr)} else {e.addr}
  }

  /** The data and bitmap blocks that these rounds log. */
  ghost function RoundsLog(g: Geometry, v: seq<Visit>): set<int> {
    if v == [] then {} else RoundsLog(g, v[..|v| - 1]) + RoundLog(g, v[|v| - 1])
  }

  /** The indirect block went from ind0 to ind; entry: an entry of it was filled. */
  ghost function IndirectLog(g: Geometry, ind0: int, ind: int, entry: bool): set<int> {
    (if entry then {ind} else {}) + (if ind0 == 0 && ind != 0 then {ind, BitmapOf(g, ind)} else {})
  }

  /** Everything one writei logs: its rounds, the indirect block with its bitmap block, the inode. */
  ghost function WriteLog(g: Geometry, v: seq<Visit>, ind0: int, ind: int, entry: bool, inode: int): set<int> {
    RoundsLog(g, v) + IndirectLog(g, ind0, ind, entry) + {inode}
  }

  // ---------------------------------------------------------------- counting

  lemma AddOne(s: set<int>, x: int)
    ensures |s + {x}| <= |s| + 1
  {
    if x in s { assert s + {x} == s; }
  }

  lemma AddTwo(s: set<int>, x: int, y: int)
    ensures |s + {x, y}| <= |s| + 2
  {
    AddOne(s, x);
    AddOne(s + {x}, y);
    assert s + {x} + {y} == s + {x, y};
  }

  lemma SubsetCount(a: set<int>, b: set<int>)
    requires a <= b
    ensures |a| <= |b|
    decreases |a|
  {
    if a != {} {
      var x := SomeOf(a);
      SubsetCount(a - {x}, b - {x});
    }
  }

  lemma SomeOf<T>(s: set<T>) returns (x: T)
    requires s != {}
    ensures x in s
  {
    x :| x in s;
  }

  lemma UnionCount(a: set<int>, b: set<int>)
    ensures |a + b| <= |a| + |b|
    decreases |b|
  {
    if b != {} {
      var x := SomeOf(b);
      UnionCount(a + {x}, b - {x});
      AddOne(a, x);
      assert a + {x} + (b - {x}) == a + b;
    } else {
      assert a + b == a;
    }
  }

  ghost function News(v: seq<Visit>): nat {
    if v == [] then 0 else News(v[..|v| - 1]) + if v[|v| - 1].isNew then 1 else 0
  }

  lemma {:induction false} RoundsCount(g: Geometry, v: seq<Visit>)
    ensures |RoundsLog(g, v)| <= |v| + News(v)
  {
    if v != [] {
      var e := v[|v| - 1];
      RoundsCount(g, v[..|v| - 1]);
      AddTwo(RoundsLog(g, v[..|v| - 1]), e.addr, BitmapOf(g, e.addr));
      AddOne(RoundsLog(g, v[..|v| - 1]), e.addr);
    }
  }

  /** The rounds of a chunk of filewrite at off: a block entered in its middle is not new. */
  ghost predicate ChunkShape(off: int, v: seq<Visit>) {
    if off % BSIZE == 0 then |v| <= 3 else |v| <= 4 && (|v| > 0 ==> !v[0].isNew)
  }

  lemma {:induction false} NewsBound(v: seq<Visit>)
    ensures News(v) <= |v| && (|v| > 0 && !v[0].isNew ==> News(v) < |v|)
  {
    if v != [] { NewsBound(v[..|v| - 1]); }
  }

  /**
    A chunk stays within MAXOPBLOCKS, for every offset, file size and disk size; and up to the
    iupdate that ends it, there is room for one more.
   */
  lemma ChunkFits(g: Geometry, off: int, v: seq<Visit>, ind0: int, ind: int, entry: bool, inode: int)
    requires ChunkShape(off, v)
    ensures |WriteLog(g, v, ind0, ind, entry, inode)| <= MAXOPBLOCKS
    ensures |RoundsLog(g, v) + IndirectLog(g, ind0, ind, entry)| < MAXOPBLOCKS
  {
    RoundsCount(g, v);
    NewsBound(v);
    AddTwo(RoundsLog(g, v), ind, BitmapOf(g, ind));
    AddOne(RoundsLog(g, v) + {ind, BitmapOf(g, ind)}, inode);
    SubsetCount(WriteLog(g, v, ind0, ind, entry, inode), RoundsLog(g, v) + {ind, BitmapOf(g, ind)} + {inode});
    SubsetCount(RoundsLog(g, v) + IndirectLog(g, ind0, ind, entry), RoundsLog(g, v) + {ind, BitmapOf(g, ind)});
  }

  lemma NextRound(g: Geometry, v: seq<Visit>, e: Visit)
    ensures RoundsLog(g, v + [e]) == RoundsLog(g, v) + RoundLog(g, e)
  {
    assert (v + [e])[..|v|] == v;
  }

  lemma FourRounds(g: Geometry, a: Visit, b: Visit, c: Visit, d: Visit)
    ensures RoundsLog(g, [a, b, c, d]) == RoundLog(g, a) + RoundLog(g, b) + RoundLog(g, c) + RoundLog(g, d)
  {
    NextRound(g, [], a);
    NextRound(g, [a], b);
    NextRound(g, [a, b], c);
    NextRound(g, [a, b, c], d);
    assert [] + [a] == [a] && [a] + [b] == [a, b] && [a, b] + [c] == [a, b, c] && [a, b, c] + [d] == [a, b, c, d];
  }

  lemma AddNew(s: set<int>, x: int)
    requires x !in s
    ensures |s + {x}| == |s| + 1
  {
  }

  lemma ApartCount(a: set<int>, b: set<int>, lim: int)
    requires (forall x :: x in a ==> x >= lim) && (forall x :: x in b ==> x < lim)
    ensures |a + b| == |a| + |b|
  {
    forall x | x in a ensures x !in b { assert x >= lim; }
    assert a !! b;
  }

  /** The rounds of an unaligned chunk that allocates three blocks and the indirect block. */
  ghost function TightRounds(a: int, b: int, c: int, d: int): seq<Visit> {
    [Visit(a, false), Visit(b, true), Visit(c, true), Visit(d, true)]
  }

  lemma TightLog(g: Geometry, a: int, b: int, c: int, d: int, ind: int, inode: int)
    requires ind != 0
    ensures WriteLog(g, TightRounds(a, b, c, d), 0, ind, true, inode)
      == {a, b, c, d, ind} + {BitmapOf(g, b), BitmapOf(g, c), BitmapOf(g, d), BitmapOf(g, ind), inode}
  {
    FourRounds(g, Visit(a, false), Visit(b, true), Visit(c, true), Visit(d, true));
    hide RoundsLog, BitmapOf;
  }

  /** If they all lie apart, they log MAXOPBLOCKS blocks: the bound is tight. */
  lemma Tight(g: Geometry, a: int, b: int, c: int, d: int, ind: int, inode: int, lim: int)
    requires FiveApart(a, b, c, d, ind) && ind != 0
    requires FiveApart(BitmapOf(g, b), BitmapOf(g, c), BitmapOf(g, d), BitmapOf(g, ind), inode)
    requires a >= lim && b >= lim && c >= lim && d >= lim && ind >= lim && inode < lim
    requires BitmapOf(g, b) < lim && BitmapOf(g, c) < lim && BitmapOf(g, d) < lim && BitmapOf(g, ind) < lim
    ensures |WriteLog(g, TightRounds(a, b, c, d), 0, ind, true, inode)| == MAXOPBLOCKS
  {
    hide BitmapOf, WriteLog, TightRounds;
    TightLog(g, a, b, c, d, ind, inode);
    FiveCount(a, b, c, d, ind);
    FiveCount(BitmapOf(g, b), BitmapOf(g, c), BitmapOf(g, d), BitmapOf(g, ind), inode);
    ApartCount({a, b, c, d, ind}, {BitmapOf(g, b), BitmapOf(g, c), BitmapOf(g, d), BitmapOf(g, ind), inode}, lim);
  }

  ghost predicate FourApart(a: int, b: int, c: int, d: int) {
    a != b && a != c && a != d && b != c && b != d && c != d
  }

  ghost predicate FiveApart(a: int, b: int, c: int, d: int, e: int) {
    FourApart(a, b, c, d) && a != e && b != e && c != e && d != e
  }

  lemma FiveCount(a: int, b: int, c: int, d: int, e: int)
    requires FiveApart(a, b, c, d, e)
    ensures |{a, b, c, d, e}| == 5
  {
    AddNew({}, a);
    AddNew({a}, b);
    AddNew({a, b}, c);
    AddNew({a, b, c}, d);
    AddNew({a, b, c, d}, e);
    assert {a, b, c, d} + {e} == {a, b, c, d, e} && {a, b, c} + {d} == {a, b, c, d};
    assert {a, b} + {c} == {a, b, c} && {a} + {b} == {a, b};
  }

  /** The same, with a first block that was missing. */
  ghost function HoleRounds(a: int, b: int, c: int, d: int): seq<Visit> {
    [Visit(a, true), Visit(b, true), Visit(c, true), Visit(d, true)]
  }

  /** If the first block could be new as well, a fifth bitmap block would be one too many. */
  lemma HoleTooMany(g: Geometry, a: int, b: int, c: int, d: int, ind: int, inode: int, lim: int)
    requires FiveApart(a, b, c, d, ind) && ind != 0
    requires FiveApart(BitmapOf(g, b), BitmapOf(g, c), BitmapOf(g, d), BitmapOf(g, ind), inode)
    requires a >= lim && b >= lim && c >= lim && d >= lim && ind >= lim && inode < lim && BitmapOf(g, a) < lim
    requires BitmapOf(g, b) < lim && BitmapOf(g, c) < lim && BitmapOf(g, d) < lim && BitmapOf(g, ind) < lim
    requires BitmapOf(g, a) !in {BitmapOf(g, b), BitmapOf(g, c), BitmapOf(g, d), BitmapOf(g, ind), inode}
    ensures |WriteLog(g, HoleRounds(a, b, c, d), 0, ind, true, inode)| > MAXOPBLOCKS
  {
    hide WriteLog, BitmapOf, TightRounds, HoleRounds;
    var log := WriteLog(g, TightRounds(a, b, c, d), 0, ind, true, inode);
    HoleLog(g, a, b, c, d, ind, inode);
    TightLog(g, a, b, c, d, ind, inode);
    Tight(g, a, b, c, d, ind, inode, lim);
    AddNew(log, BitmapOf(g, a));
  }

  lemma HoleLog(g: Geometry, a: int, b: int, c: int, d: int, ind: int, inode: int)
    ensures WriteLog(g, HoleRounds(a, b, c, d), 0, ind, true, inode)
      == WriteLog(g, TightRounds(a, b, c, d), 0, ind, true, inode) + {BitmapOf(g, a)}
  {
    FourRounds(g, Visit(a, true), Visit(b, true), Visit(c, true), Visit(d, true));
    FourRounds(g, Visit(a, false), Visit(b, true), Visit(c, true), Visit(d, true));
    hide RoundsLog, BitmapOf, IndirectLog;
  }

  // ---------------------------------------------------------------- the slots a write touches

  /** Slot k belongs to one of the n file blocks from lo on, or is the indirect pointer. */
  predicate InRange(k: int, lo: int, n: int) {
    k == 12 || (k < 12 && lo <= k < lo + n) || (k > 12 && lo <= k - 1 < lo + n)
  }

  /** Round n went to file block lo + n. */
  ghost predicate VisitOk(s0: Fs, s: Fs, i: int, lo: int, v: seq<Visit>, n: int)
    requires i in s0.inodes && |s0.inodes[i].addrs| == 13 && i in s.inodes && |s.inodes[i].addrs| == 13
    requires 0 <= n < |v| && 0 <= lo && lo + |v| <= MAXFILE
  {
    v[n].addr == BlockOf(s, i, lo + n) != 0 && (v[n].isNew <==> BlockOf(s0, i, lo + n) == 0)
  }

  /** Slot k of file j is what it was. */
  ghost predicate SlotSame(s0: Fs, s: Fs, j: int, k: int)
    requires j in s0.inodes && |s0.inodes[j].addrs| == 13 && j in s.inodes
    requires |s.inodes[j].addrs| == 13 && 0 <= k < SLOTS
  {
    SlotOf(s.blocks, s.inodes[j], k) == SlotOf(s0.blocks, s0.inodes[j], k)
  }

  ghost predicate SlotsStay(g: Geometry, s0: Fs, s: Fs)
    requires Shape(g, s0) && Shape(g, s) && s.inodes.Keys == s0.inodes.Keys
  {
    forall j, k {:trigger SlotSame(s0, s, j, k)} :: j in s0.inodes && 0 <= k < SLOTS ==>
      SlotOf(s0.blocks, s0.inodes[j], k) == 0 || SlotSame(s0, s, j, k)
  }

  ghost predicate SlotsOutside(g: Geometry, s0: Fs, s: Fs, i: int, lo: int, n: int)
    requires Shape(g, s0) && Shape(g, s) && s.inodes.Keys == s0.inodes.Keys
  {
    forall j, k {:trigger SlotSame(s0, s, j, k)} :: j in s0.inodes && 0 <= k < SLOTS ==>
      (j == i && InRange(k, lo, n)) || SlotSame(s0, s, j, k)
  }

  /**
    The rounds v so far went to consecutive file blocks from lo on; only their slots and the
    indirect pointer were filled.
   */
  ghost predicate Course(g: Geometry, s0: Fs, s: Fs, i: int, lo: int, v: seq<Visit>) {
    && Shape(g, s0) && Shape(g, s) && s.inodes.Keys == s0.inodes.Keys
    && i in s0.inodes && 0 <= lo && lo + |v| <= MAXFILE
    && SlotsStay(g, s0, s) && SlotsOutside(g, s0, s, i, lo, |v|)
    && (forall n {:trigger VisitOk(s0, s, i, lo, v, n)} :: 0 <= n < |v| ==> VisitOk(s0, s, i, lo, v, n))
  }

  lemma CourseNone(g: Geometry, s: Fs, i: int, lo: int)
    requires Shape(g, s) && i in s.inodes && 0 <= lo <= MAXFILE
    ensures Course(g, s, s, i, lo, [])
  {
  }

  /** One bmap for file block bn: the other slots stay, and so does this one if it was filled. */
  lemma SlotMapped(g: Geometry, s: Fs, s': Fs, i: int, bn: int, j: int, k: int)
    requires Shape(g, s) && Shape(g, s') && Filled(g, s, s') && OnlySlot(g, s, s', i, DataSlot(bn)) && 0 <= bn < MAXFILE
    requires j in s.inodes && 0 <= k < SLOTS
    ensures j in s'.inodes && |s.inodes[j].addrs| == 13 && |s'.inodes[j].addrs| == 13
    ensures !(j == i && (k == DataSlot(bn) || k == 12)) || SlotOf(s.blocks, s.inodes[j], k) != 0 ==>
      SlotSame(s, s', j, k)
  {
  }

  /** bmap found or made the block of the next round. */
  lemma CourseMapped(g: Geometry, s0: Fs, s: Fs, s': Fs, i: int, lo: int, v: seq<Visit>)
    requires Course(g, s0, s, i, lo, v) && Shape(g, s') && Filled(g, s, s') && lo + |v| < MAXFILE
    requires OnlySlot(g, s, s', i, DataSlot(lo + |v|)) && BlockOf(s', i, lo + |v|) != 0
    ensures Course(g, s0, s', i, lo, v + [Visit(BlockOf(s', i, lo + |v|), BlockOf(s, i, lo + |v|) == 0)])
  {
    hide SlotOf, Filled, OnlySlot;
    var m := |v|;
    var bn := lo + m;
    assert s'.inodes.Keys == s.inodes.Keys by { SameKeys(g, s, s'); }
    var v' := v + [Visit(BlockOf(s', i, bn), BlockOf(s, i, bn) == 0)];
    assert SlotSame(s0, s, i, DataSlot(bn));
    forall j, k {:trigger SlotSame(s0, s', j, k)} | j in s0.inodes && 0 <= k < SLOTS
      ensures SlotOf(s0.blocks, s0.inodes[j], k) == 0 || SlotSame(s0, s', j, k)
      ensures (j == i && InRange(k, lo, m + 1)) || SlotSame(s0, s', j, k)
    {
      SlotMapped(g, s, s', i, bn, j, k);
      assert SlotSame(s0, s, j, k) || (j == i && InRange(k, lo, m));
    }
    forall n {:trigger VisitOk(s0, s', i, lo, v', n)} | 0 <= n < |v'| ensures VisitOk(s0, s', i, lo, v', n) {
      if n < m {
        assert VisitOk(s0, s, i, lo, v, n);
        SlotMapped(g, s, s', i, bn, i, DataSlot(lo + n));
      }
    }
  }

  /** bmap failed: at most the indirect block was added. */
  lemma CourseFailed(g: Geometry, s0: Fs, s: Fs, s': Fs, i: int, lo: int, v: seq<Visit>)
    requires Course(g, s0, s, i, lo, v) && Shape(g, s') && Filled(g, s, s') && lo + |v| < MAXFILE
    requires OnlySlot(g, s, s', i, DataSlot(lo + |v|)) && BlockOf(s', i, lo + |v|) == 0
    ensures Course(g, s0, s', i, lo, v)
  {
    hide SlotOf, Filled, OnlySlot;
    var bn := lo + |v|;
    assert s'.inodes.Keys == s.inodes.Keys by { SameKeys(g, s, s'); }
    SlotMapped(g, s, s', i, bn, i, DataSlot(bn));
    forall j, k {:trigger SlotSame(s0, s', j, k)} | j in s0.inodes && 0 <= k < SLOTS
      ensures SlotOf(s0.blocks, s0.inodes[j], k) == 0 || SlotSame(s0, s', j, k)
      ensures (j == i && InRange(k, lo, |v|)) || SlotSame(s0, s', j, k)
    {
      SlotMapped(g, s, s', i, bn, j, k);
      assert SlotSame(s0, s, j, k) || (j == i && InRange(k, lo, |v|));
    }
    forall n {:trigger VisitOk(s0, s', i, lo, v, n)} | 0 <= n < |v| ensures VisitOk(s0, s', i, lo, v, n) {
      assert VisitOk(s0, s, i, lo, v, n);
      SlotMapped(g, s, s', i, bn, i, DataSlot(lo + n));
    }
  }

  /** A state with the same slots. */
  lemma CourseSame(g: Geometry, s0: Fs, s: Fs, s': Fs, i: int, lo: int, v: seq<Visit>)
    requires Course(g, s0, s, i, lo, v) && Shape(g, s') && s'.inodes.Keys == s.inodes.Keys
    requires forall j, k :: j in s.inodes && 0 <= k < SLOTS ==>
      SlotOf(s'.blocks, s'.inodes[j], k) == SlotOf(s.blocks, s.inodes[j], k)
    ensures Course(g, s0, s', i, lo, v)
  {
    hide SlotOf;
    forall j, k {:trigger SlotSame(s0, s', j, k)} | j in s0.inodes && 0 <= k < SLOTS
      ensures SlotSame(s0, s', j, k) <==> SlotSame(s0, s, j, k)
    {}
    forall n {:trigger VisitOk(s0, s', i, lo, v, n)} | 0 <= n < |v| ensures VisitOk(s0, s', i, lo, v, n) {
      assert VisitOk(s0, s, i, lo, v, n);
    }
  }
}
