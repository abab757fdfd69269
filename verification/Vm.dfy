/**
  The page-table operations of vm.c over the page allocator of kalloc.c, in
  place on physical memory.

  Each operation takes the tree its page table denotes as a ghost argument.
  Its preconditions are the panics of the source: callers must rule them out.
 */
module Vm {
  import opened Params
  import opened Sv39
  import opened PageCost

  const PHYSTOP := 0x8_8000            // page number of KERNBASE + 128 MB

  ghost function FreeSet(free: seq<int>): set<int> {
    set p | p in free
  }

  /** Every free page is RAM that the kernel image does not occupy, and is listed once. */
  ghost predicate FreeOk(mem: Mem, free: seq<int>, end: int) {
    end > 0 && Distinct(free) && forall p :: p in free ==> end <= p < PHYSTOP && p in mem
  }

  /** The page table of t is well formed, in pages of its own. */
  ghost predicate Valid(mem: Mem, free: seq<int>, end: int, t: Tree) {
    && FreeOk(mem, free, end) && Wf(mem, t)
    && (forall p :: p in TablePages(t) ==> end <= p < PHYSTOP && p !in free)
  }

  lemma LeavesArePtes(mem: Mem, free: seq<int>, end: int, t: Tree)
    requires Valid(mem, free, end, t)
    ensures forall w :: w in t.leaf ==> 0 <= w < MAXVPN && t.leaf[w].Pte?
  {
  }

  /** Memory changes only on the pages of s. */
  ghost predicate SameOutside(mem: Mem, mem': Mem, s: set<int>) {
    mem'.Keys == mem.Keys && forall p :: p in mem && p !in s ==> mem'[p] == mem[p]
  }

  /** The page table took pages from the free list, and neither lost nor moved any. */
  ghost predicate Grown(mem: Mem, free: seq<int>, t: Tree, mem': Mem, free': seq<int>, t': Tree) {
    && t'.root == t.root
    && (forall k :: k in t.low ==> k in t'.low && t'.low[k] == t.low[k])
    && TablePages(t') + FreeSet(free') == TablePages(t) + FreeSet(free)
    && FreeSet(free') <= FreeSet(free)
    && SameOutside(mem, mem', TablePages(t) + FreeSet(free))
  }

  /** The page-table pages that t lacks for the virtual pages vs. */
  ghost function Missing(t: Tree, vs: set<int>): nat {
    Lacking(t.mid.Keys, t.low.Keys, vs)
  }

  /** The tables over virtual page v are there, at the cost of exactly those that were not. */
  ghost predicate TablesMade(free: seq<int>, t: Tree, free': seq<int>, t': Tree, v: int) {
    Covers(t, t', v) && |free'| + Missing(t, {v}) == |free|
  }

  /** The pages that t takes from the free list to map a page at each of vs. */
  ghost function Needed(t: Tree, vs: set<int>): nat {
    Cost(t.mid.Keys, t.low.Keys, vs)
  }

  /** A page has been mapped at v, at exactly its cost. */
  ghost predicate PageMade(free: seq<int>, t: Tree, free': seq<int>, t': Tree, v: int) {
    Covers(t, t', v) && |free'| + Needed(t, {v}) == |free|
  }

  /** There is not even memory to map virtual page w, which is absent. */
  ghost predicate OutOfMemory(free: seq<int>, t: Tree, w: int) {
    |free| <= 1 && w !in t.leaf && |free| < Needed(t, {w})
  }

  lemma TooFew(free: seq<int>, t: Tree, w: int)
    requires |free| <= 1 && w !in t.leaf && (free == [] || LowOf(w) !in t.low)
    ensures OutOfMemory(free, t, w)
  {
    LacksOne(t.mid.Keys, t.low.Keys, w);
  }

  lemma NeededOne(t: Tree, v: int)
    ensures Needed(t, {v}) == 1 + Missing(t, {v}) && Range(v, v + 1) == {v}
  {
  }

  /** The page at v comes first, then the rest. */
  lemma NeededSplits(t: Tree, t': Tree, v: int, rest: set<int>)
    requires v !in rest
    ensures Needed(t, {v}) <= Needed(t, {v} + rest)
    ensures Covers(t, t', v) ==> Needed(t, {v} + rest) == Needed(t, {v}) + Needed(t', rest)
  {
    CostSplits(t.mid.Keys, t.low.Keys, v, rest);
  }

  lemma NoneNeeded(t: Tree)
    ensures Needed(t, {}) == 0
  {
    assert Mids({}) == {} && Lows({}) == {};
  }

  /** The tables over v come first, then those over the rest. */
  lemma MissingSplits(t: Tree, t': Tree, v: int, hi: int)
    requires v < hi
    ensures Missing(t, {v}) <= Missing(t, Range(v, hi))
    ensures Covers(t, t', v) ==> Missing(t, Range(v, hi)) == Missing(t, {v}) + Missing(t', Range(v + 1, hi))
  {
    InRange(v + 1, hi, v);
    CostSplits(t.mid.Keys, t.low.Keys, v, Range(v + 1, hi));
  }

  lemma NoneMissing(t: Tree, hi: int)
    ensures Missing(t, Range(hi, hi)) == 0
  {
    assert Mids({}) == {} && Lows({}) == {};
  }

  lemma GrownNot(mem: Mem, free: seq<int>, t: Tree)
    ensures Grown(mem, free, t, mem, free, t)
  {
  }

  lemma SameRoot(mem: Mem, free: seq<int>, t: Tree, mem': Mem, free': seq<int>, t': Tree)
    requires Grown(mem, free, t, mem', free', t')
    ensures t'.root == t.root
  {
  }

  lemma GrownTwice(m0: Mem, f0: seq<int>, t0: Tree, m1: Mem, f1: seq<int>, t1: Tree, m2: Mem, f2: seq<int>, t2: Tree)
    requires Grown(m0, f0, t0, m1, f1, t1) && Grown(m1, f1, t1, m2, f2, t2)
    ensures Grown(m0, f0, t0, m2, f2, t2)
  {
  }

  /** The leaves of leaf plus n new ones from virtual page v on, to consecutive physical pages. */
  ghost function Mapped(leaf: map<int, Pte>, v: int, n: nat, ppn: int, fl: Flags): map<int, Pte> {
    if n == 0 then leaf else Mapped(leaf, v, n - 1, ppn, fl)[v + n - 1 := Pte(ppn + n - 1, fl)]
  }

  lemma {:induction false} MappedAt(leaf: map<int, Pte>, v: int, n: nat, ppn: int, fl: Flags, w: int)
    ensures w in Mapped(leaf, v, n, ppn, fl) <==> w in leaf || v <= w < v + n
    ensures v <= w < v + n ==> Mapped(leaf, v, n, ppn, fl)[w] == Pte(ppn + w - v, fl)
    ensures w in leaf && !(v <= w < v + n) ==> Mapped(leaf, v, n, ppn, fl)[w] == leaf[w]
  {
    if n > 0 { MappedAt(leaf, v, n - 1, ppn, fl, w); }
  }

  /** The leaves of leaf outside the n pages from v on. */
  ghost function Cleared(leaf: map<int, Pte>, v: int, n: int): map<int, Pte> {
    map w | w in leaf && !(v <= w < v + n) :: leaf[w]
  }

  /** The physical pages that the n virtual pages from v on lead to. */
  ghost function Ppns(leaf: map<int, Pte>, v: int, n: int): set<int> {
    set w | w in leaf && v <= w < v + n && leaf[w].Pte? :: leaf[w].ppn
  }

  ghost predicate Leads(leaf: map<int, Pte>, w: int, p: int) {
    w in leaf && leaf[w].Pte? && leaf[w].ppn == p
  }

  /** Page p is RAM that is neither free nor a page-table page. */
  ghost predicate FrameOk(mem: Mem, free: seq<int>, end: int, t: Tree, p: int) {
    end <= p < PHYSTOP && p in mem && p !in free && p !in TablePages(t)
  }

  /** The n virtual pages from v on lead, where they lead anywhere, to distinct pages in no other use. */
  ghost predicate OwnFrames(mem: Mem, free: seq<int>, end: int, t: Tree, v: int, n: int) {
    && (forall a, b, p :: v <= a < v + n && v <= b < v + n && Leads(t.leaf, a, p) && Leads(t.leaf, b, p) ==> a == b)
    && (forall w, p :: v <= w < v + n && Leads(t.leaf, w, p) ==> FrameOk(mem, free, end, t, p))
  }

  lemma NewPage(mem: Mem, free: seq<int>, end: int, t: Tree, n: int, f1: seq<int>, mem': Mem)
    requires Valid(mem, free, end, t) && n in free && mem' == mem[n := Junk5()]
    ensures Wf(mem', t) && n !in TablePages(t)
  {
    WfOutside(mem, mem', t);
  }

  lemma GrewBy(mem: Mem, free: seq<int>, end: int, t: Tree, n: int, f1: seq<int>, mem': Mem, t': Tree)
    requires Valid(mem, free, end, t) && n in free && n !in f1 && FreeSet(f1) == FreeSet(free) - {n}
    requires Distinct(f1) && Wf(mem', t') && TablePages(t') == TablePages(t) + {n} && t'.root == t.root
    requires forall k :: k in t.low ==> k in t'.low && t'.low[k] == t.low[k]
    requires SameOutside(mem, mem', TablePages(t) + {n})
    ensures Valid(mem', f1, end, t') && Grown(mem, free, t, mem', f1, t')
  {
    hide Wf;
    assert forall q :: q in f1 <==> q in FreeSet(f1);
    assert n in FreeSet(free);
  }

  /** The table that walk looks at on the way to level-0 table k. */
  ghost predicate OnPath(t: Tree, level: int, k: int, p: int) {
    && (level == 2 ==> p == t.root)
    && (level == 1 ==> k / ENTRIES in t.mid && p == t.mid[k / ENTRIES])
    && (level == 0 ==> k in t.low && p == t.low[k])
  }

  /** The entry of a table above level 0 is there exactly if the next table is, and leads to it. */
  lemma OnPathEntry(mem: Mem, free: seq<int>, end: int, t: Tree, level: int, k: int, p: int)
    requires Valid(mem, free, end, t) && OnPath(t, level, k, p) && 1 <= level <= 2 && 0 <= k < ENTRIES * ENTRIES
    ensures IsTable(mem, p)
    ensures var e := mem[p].pte[if level == 2 then k / ENTRIES else k % ENTRIES];
      && (e.Pte? <==> if level == 2 then k / ENTRIES in t.mid else k in t.low)
      && (e.Pte? ==> OnPath(t, level - 1, k, e.ppn)) && (e.Zero? ==> k !in t.low)
  {
    assert RootAt(mem, t, k / ENTRIES) && MidAt(mem, t, k);
  }

  lemma TableNonzero(mem: Mem, free: seq<int>, end: int, t: Tree, k: int)
    requires Valid(mem, free, end, t) && k in t.low
    ensures t.low[k] != 0
  {
    assert t.low[k] in TablePages(t);
  }

  /** What walk has made of the tables over v when it looks at this level. */
  ghost predicate MadeTo(free: seq<int>, t: Tree, free': seq<int>, t': Tree, v: int, level: int) {
    && (level == 2 ==> t' == t && free' == free)
    && (level == 1 ==>
          && t'.low == t.low && t'.mid.Keys == t.mid.Keys + {MidOf(v)}
          && |free'| + (if MidOf(v) in t.mid then 0 else 1) == |free|)
    && (level == 0 ==> TablesMade(free, t, free', t', v))
  }

  lemma NothingMade(free: seq<int>, t: Tree, v: int)
    ensures MadeTo(free, t, free, t, v, 2)
  {
  }

  lemma MadeBefore(free: seq<int>, t: Tree, free': seq<int>, t': Tree, v: int, level: int)
    requires MadeTo(free, t, free', t', v, level) && 1 <= level <= 2
    requires if level == 2 then MidOf(v) in t'.mid else LowOf(v) in t'.low
    ensures MadeTo(free, t, free', t', v, level - 1)
  {
    hide MidOf, LowOf, Lacking;
    LacksOne(t.mid.Keys, t.low.Keys, v);
  }

  lemma MadeNext(free: seq<int>, t: Tree, f1: seq<int>, t1: Tree, free': seq<int>, t': Tree, v: int, level: int, n: int)
    requires MadeTo(free, t, f1, t1, v, level) && 1 <= level <= 2 && |free'| + 1 == |f1|
    requires if level == 2 then MidOf(v) !in t1.mid else LowOf(v) !in t1.low
    requires t' == if level == 2 then t1.(mid := t1.mid[MidOf(v) := n]) else t1.(low := t1.low[LowOf(v) := n])
    ensures MadeTo(free, t, free', t', v, level - 1)
  {
    hide MidOf, LowOf, Lacking;
    LacksOne(t.mid.Keys, t.low.Keys, v);
  }

  lemma MadeNoMore(free: seq<int>, t: Tree, f1: seq<int>, t1: Tree, v: int, level: int)
    requires MadeTo(free, t, f1, t1, v, level) && 1 <= level <= 2 && f1 == []
    requires if level == 2 then MidOf(v) !in t1.mid else LowOf(v) !in t1.low
    ensures |free| < Missing(t, {v})
  {
    LacksOne(t.mid.Keys, t.low.Keys, v);
  }

  lemma MadeAll(free: seq<int>, t: Tree, free': seq<int>, t': Tree, v: int)
    requires MadeTo(free, t, free', t', v, 0)
    ensures TablesMade(free, t, free', t', v) && |free| >= Missing(t, {v})
  {
  }

  lemma TableAt(mem: Mem, t: Tree, level: int, k: int)
    requires Wf(mem, t) && 1 <= level <= 2 && 0 <= k < ENTRIES * ENTRIES && (level == 1 ==> k / ENTRIES in t.mid)
    ensures var p := if level == 2 then t.root else t.mid[k / ENTRIES]; p in TablePages(t) && IsTable(mem, p)
  {
  }

  function Junk1(): Page {
    Frame(seq(4096, i => 1))
  }

  function Junk5(): Page {
    Frame(seq(4096, i => 5))
  }

  class Kernel {
    var mem: Mem
    var free: seq<int>       // kmem.freelist, first page first
    const end: int           // first allocatable page

    method Kalloc() returns (p: int)
      requires FreeOk(mem, free, end)
      modifies this
      ensures FreeOk(mem, free, end)
      ensures p == 0 <==> old(free) == []
      ensures p == 0 ==> mem == old(mem) && free == old(free)
      ensures p != 0 ==> p in old(free) && p in old(mem) && free == old(free)[1..] && mem == old(mem)[p := Junk5()]
      ensures p != 0 ==> p !in free && FreeSet(free) == FreeSet(old(free)) - {p}
    {
      if |free| == 0 { return 0; }
      p := free[0];
      assert p in free;
      assert free == [p] + free[1..];
      free := free[1..];
      assert forall q :: q in free ==> q in old(free);
      mem := mem[p := Junk5()];
    }

    method Kfree(p: int)
      requires FreeOk(mem, free, end) && end <= p < PHYSTOP && p in mem && p !in free
      modifies this
      ensures FreeOk(mem, free, end) && free == [p] + old(free) && mem == old(mem)[p := Junk1()]
      ensures FreeSet(free) == FreeSet(old(free)) + {p}
    {
      mem := mem[p := Junk1()];
      free := [p] + free;
    }

    /** kinit: every page from end to PHYSTOP becomes free. */
    method FreeRange()
      requires free == [] && 0 < end <= PHYSTOP && forall p :: end <= p < PHYSTOP ==> p in mem
      modifies this
      ensures FreeOk(mem, free, end) && forall p :: p in free <==> end <= p < PHYSTOP
    {
      var p := end;
      while p + 1 <= PHYSTOP
        invariant end <= p <= PHYSTOP && FreeOk(mem, free, end) && mem.Keys == old(mem).Keys
        invariant forall q :: q in free <==> end <= q < p
      {
        Kfree(p);
        p := p + 1;
      }
    }

    /** walk's allocation of one page-table page, to hang from entry px of page p. */
    method Grow(p: int, px: int, ghost level: int, ghost k: int, ghost t: Tree) returns (n: int, ghost t': Tree)
      requires Valid(mem, free, end, t) && 1 <= level <= 2 && 0 <= k < ENTRIES * ENTRIES
      requires level == 2 ==> p == t.root && px == k / ENTRIES && k / ENTRIES !in t.mid
      requires level == 1 ==> k / ENTRIES in t.mid && p == t.mid[k / ENTRIES] && px == k % ENTRIES && k !in t.low
      modifies this
      ensures Valid(mem, free, end, t') && t'.leaf == t.leaf
      ensures n == 0 ==> t' == t && mem == old(mem) && free == old(free) == []
      ensures n != 0 ==> |free| + 1 == |old(free)|
      ensures n != 0 ==> t' == if level == 2 then t.(mid := t.mid[k / ENTRIES := n]) else t.(low := t.low[k := n])
      ensures Grown(old(mem), old(free), t, mem, free, t')
    {
      t' := t;
      n := Kalloc();
      if n == 0 { return; }
      hide Wf, Valid, Grown;
      ghost var f1 := free;
      NewPage(old(mem), old(free), end, t, n, f1, mem);
      TableAt(mem, t, level, k);
      if level == 2 {
        AddMid(mem, t, px, n);
        t' := t.(mid := t.mid[px := n]);
      } else {
        AddLow(mem, t, k, n);
        t' := t.(low := t.low[k := n]);
      }
      mem := mem[n := EmptyTable()];
      mem := SetEntry(mem, p, px, Pte(n, TO_TABLE));
      GrewBy(old(mem), old(free), end, t, n, f1, mem, t');
    }

    /**
      walk: the level-0 table for va, or 0.  Whether or not it adds page-table pages, it
      changes no translation.
     */
    method Walk(root: int, va: int, alloc: bool, ghost t: Tree) returns (tbl: int, ghost t': Tree)
      requires Valid(mem, free, end, t) && root == t.root && 0 <= va < MAXVA
      modifies this
      ensures Valid(mem, free, end, t') && t'.leaf == t.leaf
      ensures tbl != 0 <==> va / PGSIZE / ENTRIES in t'.low
      ensures tbl != 0 ==> tbl == t'.low[va / PGSIZE / ENTRIES]
      ensures !alloc ==> t' == t && mem == old(mem) && free == old(free)
      ensures alloc && tbl == 0 ==> free == []
      ensures alloc ==> (tbl != 0 <==> |old(free)| >= Missing(t, {va / PGSIZE}))
      ensures alloc && tbl != 0 ==> TablesMade(old(free), t, free, t', va / PGSIZE)
      ensures Grown(old(mem), old(free), t, mem, free, t')
    {
      hide Valid, Wf, Grown, TablesMade, MadeTo, Missing;
      var vpn := va / PGSIZE;
      ghost var k := vpn / ENTRIES;
      IndicesSplit(vpn);
      t' := t;
      var pagetable := root;
      var level := 2;
      NothingMade(free, t, vpn);
      GrownNot(mem, free, t);
      while level > 0
        invariant 0 <= level <= 2 && Valid(mem, free, end, t') && t'.leaf == t.leaf
        invariant Grown(old(mem), old(free), t, mem, free, t')
        invariant OnPath(t', level, k, pagetable)
        invariant MadeTo(old(free), t, free, t', vpn, level)
        invariant !alloc ==> t' == t && mem == old(mem) && free == old(free)
      {
        OnPathEntry(mem, free, end, t', level, k, pagetable);
        var px := Px(level, vpn);
        var pte := mem[pagetable].pte[px];
        if pte.Pte? {
          MadeBefore(old(free), t, free, t', vpn, level);
          pagetable := pte.ppn;
        } else {
          if !alloc { return 0, t'; }
          ghost var m1, f1, t1 := mem, free, t';
          pagetable, t' := Grow(pagetable, px, level, k, t');
          GrownTwice(old(mem), old(free), t, m1, f1, t1, mem, free, t');
          if pagetable == 0 {
            MadeNoMore(old(free), t, f1, t1, vpn, level);
            return 0, t';
          }
          MadeNext(old(free), t, f1, t1, free, t', vpn, level, pagetable);
        }
        level := level - 1;
      }
      MadeAll(old(free), t, free, t', vpn);
      TableNonzero(mem, free, end, t', k);
      tbl := pagetable;
    }

    /** The PTE of a level-0 table. */
    function EntryAt(tbl: int, va: int): Pte
      requires 0 <= va && IsTable(mem, tbl)
      reads this
    {
      mem[tbl].pte[va / PGSIZE % ENTRIES]
    }

    /** walkaddr: the page of a user address, or 0. */
    method WalkAddr(root: int, va: int, ghost t: Tree) returns (pa: int)
      requires Valid(mem, free, end, t) && root == t.root && 0 <= va
      modifies this
      ensures mem == old(mem) && free == old(free)
      ensures pa == if va / PGSIZE in t.leaf && t.leaf[va / PGSIZE].flags.u then t.leaf[va / PGSIZE].ppn else 0
    {
      if va >= MAXVA { return 0; }
      var tbl, _ := Walk(root, va, false, t);
      if tbl == 0 { return 0; }
      assert LeafAt(mem, t, va / PGSIZE);
      var pte := EntryAt(tbl, va);
      if !pte.Pte? { return 0; }
      if !pte.flags.u { return 0; }
      return pte.ppn;
    }

    /** Write the level-0 entry of va in table tbl. */
    method SetPte(tbl: int, va: int, e: Pte, ghost t: Tree) returns (ghost t': Tree)
      requires Valid(mem, free, end, t) && 0 <= va < MAXVA
      requires va / PGSIZE / ENTRIES in t.low && tbl == t.low[va / PGSIZE / ENTRIES]
      modifies this
      ensures t' == t.(leaf := if e.Pte? then t.leaf[va / PGSIZE := e] else t.leaf - {va / PGSIZE})
      ensures Valid(mem, free, end, t') && free == old(free) && TablePages(t') == TablePages(t)
      ensures tbl in TablePages(t) && SameOutside(old(mem), mem, {tbl})
    {
      SetLeaf(mem, t, va / PGSIZE, e);
      t' := t.(leaf := if e.Pte? then t.leaf[va / PGSIZE := e] else t.leaf - {va / PGSIZE});
      assert tbl in t.low.Values;
      mem := SetEntry(mem, tbl, va / PGSIZE % ENTRIES, e);
    }

    /** One round of mappages: find or make the entry of va, and fill it. */
    method MapOne(root: int, va: int, ppn: int, fl: Flags, ghost t: Tree) returns (ok: bool, ghost t': Tree)
      requires Valid(mem, free, end, t) && root == t.root && 0 <= va < MAXVA && va / PGSIZE !in t.leaf
      modifies this
      ensures Valid(mem, free, end, t') && Grown(old(mem), old(free), t, mem, free, t')
      ensures t'.leaf == if ok then t.leaf[va / PGSIZE := Pte(ppn, fl)] else t.leaf
      ensures !ok ==> free == [] && LowOf(va / PGSIZE) !in t'.low
      ensures ok <==> |old(free)| >= Missing(t, {va / PGSIZE})
      ensures ok ==> TablesMade(old(free), t, free, t', va / PGSIZE)
    {
      var tbl;
      tbl, t' := Walk(root, va, true, t);
      if tbl == 0 { return false, t'; }
      ghost var m1, t1 := mem, t';
      assert LeafAt(mem, t', va / PGSIZE);
      assert EntryAt(tbl, va).Zero?;
      t' := SetPte(tbl, va, Pte(ppn, fl), t');
      assert Grown(m1, free, t1, mem, free, t');
      GrownTwice(old(mem), old(free), t, m1, free, t1, mem, free, t');
      ok := true;
    }

    /** mappages: all of the size / PGSIZE translations, or some first ones and the allocator is empty. */
    method MapPages(root: int, va: int, size: int, ppn: int, fl: Flags, ghost t: Tree)
        returns (r: int, ghost t': Tree, ghost done: nat)
      requires Valid(mem, free, end, t) && root == t.root
      requires va % PGSIZE == 0 && size % PGSIZE == 0 && size > 0 && 0 <= va && va + size <= MAXVA
      requires forall w :: va / PGSIZE <= w < (va + size) / PGSIZE ==> w !in t.leaf
      modifies this
      ensures Valid(mem, free, end, t') && Grown(old(mem), old(free), t, mem, free, t')
      ensures t'.leaf == Mapped(t.leaf, va / PGSIZE, done, ppn, fl)
      ensures (r == 0 && done == size / PGSIZE) || (r == -1 && done < size / PGSIZE && free == [])
      ensures r == 0 <==> |old(free)| >= Missing(t, Range(va / PGSIZE, (va + size) / PGSIZE))
      ensures r == 0 ==> |free| + Missing(t, Range(va / PGSIZE, (va + size) / PGSIZE)) == |old(free)|
      ensures r == 0 && size == PGSIZE ==> Covers(t, t', va / PGSIZE)
      ensures r == -1 ==> LowOf(va / PGSIZE + done) !in t'.low
    {
      hide Valid, Missing, Grown, Range;
      GrownNot(mem, free, t);
      ghost var all := Missing(t, Range(va / PGSIZE, (va + size) / PGSIZE));
      var a, pa := va, ppn;
      var last := va + size - PGSIZE;
      ghost var v, n := va / PGSIZE, size / PGSIZE;
      t', done := t, 0;
      while true
        invariant 0 <= done < n && a == 4096 * (v + done) && pa == ppn + done
        invariant Valid(mem, free, end, t') && Grown(old(mem), old(free), t, mem, free, t') && t'.root == root
        invariant t'.leaf == Mapped(t.leaf, v, done, ppn, fl)
        invariant |free| + all == |old(free)| + Missing(t', Range(v + done, v + n))
        invariant done == 0 ==> t' == t
        decreases last - a
      {
        ghost var m1, f1, t1 := mem, free, t';
        MappedAt(t.leaf, v, done, ppn, fl, v + done);
        var ok;
        ok, t' := MapOne(root, a, pa, fl, t');
        GrownTwice(old(mem), old(free), t, m1, f1, t1, mem, free, t');
        SameRoot(m1, f1, t1, mem, free, t');
        MissingSplits(t1, t', v + done, v + n);
        if !ok { return -1, t', done; }
        done := done + 1;
        if a == last { NoneMissing(t', v + n); break; }
        a := a + PGSIZE;
        pa := pa + 1;
      }
      r := 0;
    }

    /** One round of uvmunmap. */
    method UnmapOne(root: int, va: int, doFree: bool, ghost t: Tree) returns (ghost t': Tree)
      requires Valid(mem, free, end, t) && root == t.root && 0 <= va < MAXVA
      requires doFree && va / PGSIZE in t.leaf ==> FrameOk(mem, free, end, t, t.leaf[va / PGSIZE].ppn)
      modifies this
      ensures t' == t.(leaf := Cleared(t.leaf, va / PGSIZE, 1)) && Valid(mem, free, end, t')
      ensures TablePages(t') == TablePages(t)
      ensures free == if doFree && va / PGSIZE in t.leaf then [t.leaf[va / PGSIZE].ppn] + old(free) else old(free)
      ensures SameOutside(old(mem), mem, TablePages(t) + if doFree then Ppns(t.leaf, va / PGSIZE, 1) else {})
    {
      hide Valid, Wf, Grown;
      ghost var w := va / PGSIZE;
      t' := t;
      ValidFacts(mem, free, end, t, w);
      var tbl, _ := Walk(root, va, false, t);
      if tbl == 0 { return; }
      var pte := EntryAt(tbl, va);
      if pte.Zero? { return; }
      if doFree {
        FreedLeaf(mem, free, end, t, pte.ppn);
        Kfree(pte.ppn);
      }
      ghost var m1 := mem;
      t' := SetPte(tbl, va, Zero, t);
      ClearedOne(old(mem), m1, mem, t, w, tbl, doFree);
    }

    /** uvmunmap: the translations of the range are gone and, with doFree, their pages are free. */
    method UvmUnmap(root: int, va: int, npages: nat, doFree: bool, ghost t: Tree) returns (ghost t': Tree)
      requires Valid(mem, free, end, t) && root == t.root
      requires va % PGSIZE == 0 && 0 <= va && va + npages * PGSIZE <= MAXVA
      requires doFree ==> OwnFrames(mem, free, end, t, va / PGSIZE, npages)
      modifies this
      ensures Valid(mem, free, end, t')
      ensures Unmapped(old(mem), old(free), t, mem, free, t', va / PGSIZE, npages, doFree)
    {
      hide Valid, Unmapped, OwnFrames, FrameOk, Cleared;
      LeavesArePtes(mem, free, end, t);
      ghost var v := va / PGSIZE;
      var a := va;
      ghost var done := 0;
      t' := t;
      UnmappedNone(mem, free, t, v, doFree);
      while a < va + npages * PGSIZE
        invariant 0 <= done <= npages && a == 4096 * (v + done) && t'.root == root
        invariant Unmapped(old(mem), old(free), t, mem, free, t', v, done, doFree)
        invariant Valid(mem, free, end, t')
      {
        ghost var m1, f1, t1 := mem, free, t';
        UnmapReady(old(mem), mem, old(free), free, end, t, t1, v, npages, done, doFree);
        t' := UnmapOne(root, a, doFree, t1);
        UnmappedNext(old(mem), old(free), t, m1, f1, t1, mem, free, t', v, done, doFree);
        a := a + PGSIZE;
        done := done + 1;
      }
    }
  }

  lemma UnmappedNone(mem: Mem, free: seq<int>, t: Tree, v: int, doFree: bool)
    ensures Unmapped(mem, free, t, mem, free, t, v, 0, doFree)
  {
    assert Cleared(t.leaf, v, 0) == t.leaf;
  }

  /** The next page to unmap, if it is mapped, still has a frame of its own. */
  lemma UnmapReady(m0: Mem, m: Mem, f0: seq<int>, f: seq<int>, end: int, t: Tree, t1: Tree, v: int, n: int,
      k: int, doFree: bool)
    requires Unmapped(m0, f0, t, m, f, t1, v, k, doFree) && 0 <= k < n && forall w :: w in t.leaf ==> t.leaf[w].Pte?
    requires doFree ==> OwnFrames(m0, f0, end, t, v, n)
    ensures v + k in t1.leaf ==> t1.leaf[v + k].Pte?
    ensures doFree && v + k in t1.leaf ==> FrameOk(m, f, end, t1, t1.leaf[v + k].ppn)
  {
    assert TablePages(t1) == TablePages(t);
    if doFree && v + k in t1.leaf { StillOwned(m0, m, f0, f, end, t, v, n, k); }
  }

  /** What uvmunmap has done after n pages. */
  ghost predicate Unmapped(m: Mem, f: seq<int>, t: Tree, m': Mem, f': seq<int>, t': Tree, v: int, n: int,
      doFree: bool) {
    && t' == t.(leaf := Cleared(t.leaf, v, n))
    && FreeSet(f') == FreeSet(f) + (if doFree then Ppns(t.leaf, v, n) else {})
    && SameOutside(m, m', TablePages(t) + if doFree then Ppns(t.leaf, v, n) else {})
  }

  lemma UnmappedNext(m: Mem, f: seq<int>, t: Tree, m1: Mem, f1: seq<int>, t1: Tree, m': Mem, f': seq<int>, t': Tree,
      v: int, n: nat, doFree: bool)
    requires Unmapped(m, f, t, m1, f1, t1, v, n, doFree)
    requires forall w :: w in t.leaf ==> t.leaf[w].Pte?
    requires t' == t1.(leaf := Cleared(t1.leaf, v + n, 1))
    requires f' == if doFree && v + n in t1.leaf then [t1.leaf[v + n].ppn] + f1 else f1
    requires SameOutside(m1, m', TablePages(t1) + if doFree then Ppns(t1.leaf, v + n, 1) else {})
    ensures Unmapped(m, f, t, m', f', t', v, n + 1, doFree)
  {
    PpnsNext(t.leaf, v, n);
    assert Ppns(t1.leaf, v + n, 1) == Ppns(t.leaf, v + n, 1);
    assert t'.leaf == Cleared(t.leaf, v, n + 1);
    assert v + n in t.leaf <==> v + n in t1.leaf;
    assert TablePages(t1) == TablePages(t);
    forall p, rest: seq<int> ensures FreeSet([p] + rest) == {p} + FreeSet(rest) {}
  }

  lemma ValidFacts(mem: Mem, free: seq<int>, end: int, t: Tree, w: int)
    requires Valid(mem, free, end, t) && 0 <= w < MAXVPN
    ensures FreeOk(mem, free, end)
    ensures w / ENTRIES in t.low ==> IsTable(mem, t.low[w / ENTRIES])
    ensures w / ENTRIES in t.low ==> mem[t.low[w / ENTRIES]].pte[w % ENTRIES] == if w in t.leaf then t.leaf[w] else Zero
    ensures w in t.leaf ==> w / ENTRIES in t.low && t.leaf[w].Pte?
    ensures w !in t.leaf ==> Cleared(t.leaf, w, 1) == t.leaf
  {
    assert LeafAt(mem, t, w);
  }

  lemma FreedLeaf(mem: Mem, free: seq<int>, end: int, t: Tree, p: int)
    requires Valid(mem, free, end, t) && FrameOk(mem, free, end, t, p)
    ensures Valid(mem[p := Junk1()], [p] + free, end, t)
  {
    WfOutside(mem, mem[p := Junk1()], t);
    hide Wf;
  }

  lemma ClearedOne(m0: Mem, m1: Mem, m2: Mem, t: Tree, w: int, tbl: int, doFree: bool)
    requires w in t.leaf && t.leaf[w].Pte? && tbl in TablePages(t) && SameOutside(m1, m2, {tbl})
    requires if doFree then t.leaf[w].ppn in m0 && m1 == m0[t.leaf[w].ppn := Junk1()] else m1 == m0
    ensures t.leaf - {w} == Cleared(t.leaf, w, 1)
    ensures SameOutside(m0, m2, TablePages(t) + if doFree then Ppns(t.leaf, w, 1) else {})
  {
    assert t.leaf[w].ppn in Ppns(t.leaf, w, 1);
  }

  lemma PpnsNext(leaf: map<int, Pte>, v: int, n: nat)
    ensures Ppns(leaf, v, n + 1) == Ppns(leaf, v, n) + Ppns(leaf, v + n, 1)
    ensures Ppns(leaf, v + n, 1) == if v + n in leaf && leaf[v + n].Pte? then {leaf[v + n].ppn} else {}
  {
  }

  /** uvmunmap frees no page twice. */
  lemma StillOwned(mem: Mem, mem': Mem, free: seq<int>, free': seq<int>, end: int, t: Tree, v: int, n: int, k: int)
    requires OwnFrames(mem, free, end, t, v, n) && 0 <= k < n && v + k in t.leaf && t.leaf[v + k].Pte?
    requires FreeSet(free') == FreeSet(free) + Ppns(t.leaf, v, k) && mem'.Keys == mem.Keys
    ensures FrameOk(mem', free', end, t, t.leaf[v + k].ppn)
  {
    var p := t.leaf[v + k].ppn;
    assert Leads(t.leaf, v + k, p);
    if p in free' {
      assert p in FreeSet(free');
      assert p in Ppns(t.leaf, v, k);
      var w :| w in t.leaf && v <= w < v + k && t.leaf[w].Pte? && t.leaf[w].ppn == p;
      assert Leads(t.leaf, w, p);
    }
  }
}
