/**
  Creating and destroying an address space: uvmcreate and uvmfree (vm.c), proc_pagetable
  and proc_freepagetable (proc.c).
 */
module Spaces {
  import opened Sv39
  import opened Vm
  import opened PageCost
  import opened UserMem
  import opened FreeTree

  const TRAMPOLINE := 0x3f_ffff_f000

  // ---------------------------------------------------------------- whole page tables

  /** A page table without leaves is a tree that freewalk can take apart. */
  lemma NoLeaves(mem: Mem, t: Tree)
    requires Wf(mem, t) && t.leaf == map[]
    ensures Shape(t) && SubOk(mem, t, 2, 0)
  {
    forall l, c {:trigger NodeOk(mem, t, l, c)} | Has(t, l, c) && Under(2, 0, l, c) && l <= 2
      ensures NodeOk(mem, t, l, c)
    {
      NodeFine(mem, t, l, c);
    }
  }

  lemma NodeFine(mem: Mem, t: Tree, l: int, c: int)
    requires Wf(mem, t) && t.leaf == map[] && Has(t, l, c)
    ensures NodeOk(mem, t, l, c)
  {
    forall i | 0 <= i < 512 ensures mem[Node(t, l, c)].pte[i] == Expected(t, l, c, i) {
      if l == 2 { assert RootAt(mem, t, i); }
      else if l == 1 { assert MidAt(mem, t, c * 512 + i); }
      else { assert LeafAt(mem, t, c * 512 + i); }
    }
  }

  lemma EmptyWf(mem: Mem, root: int)
    requires root in mem && mem[root] == EmptyTable()
    ensures Wf(mem, Tree(root, map[], map[], map[])) && TablePages(Tree(root, map[], map[], map[])) == {root}
  {
  }

  /** uvmfree: all pages of the address space are free. */
  method UvmFree(k: Kernel, root: int, sz: int, ghost t: Tree)
    requires SpaceOk(k.mem, k.free, k.end, t, sz) && root == t.root
    requires forall w :: w in t.leaf ==> w < USERPAGES
    modifies k
    ensures FreeOk(k.mem, k.free, k.end)
    ensures FreeSet(k.free) == FreeSet(old(k.free)) + Owned(t)
    ensures SameOutside(old(k.mem), k.mem, Owned(t))
  {
    hide Valid, FramesOk, SubOk, Shape;
    ghost var t1 := t;
    LeavesArePtes(k.mem, k.free, k.end, t);
    ghost var n := PageUp(sz);
    if sz > 0 {
      OwnPart(k.mem, k.free, k.end, t, 0, n);
      t1 := k.UvmUnmap(root, 0, PageUp(sz), true, t);
      PpnsSplit(t.leaf, 0, n);
    }
    assert t1.leaf == map[] by {
      forall w ensures w !in t1.leaf {
        if w in t.leaf { assert 0 <= w < n; }
      }
    }
    ReadyToFree(k.mem, k.free, k.end, t1);
    FreeWalk(k, root, 2, 0, t1);
    AllPages(t1);
    assert TablePages(t1) == TablePages(t);
  }

  lemma ReadyToFree(mem: Mem, free: seq<int>, end: int, t: Tree)
    requires Valid(mem, free, end, t) && t.leaf == map[]
    ensures FreeOk(mem, free, end) && Shape(t) && SubOk(mem, t, 2, 0) && InUse(free, end, Pages(t, 2, 0))
  {
    NoLeaves(mem, t);
    AllPages(t);
  }

  /** uvmcreate */
  method UvmCreate(k: Kernel) returns (root: int, ghost t: Tree)
    requires FreeOk(k.mem, k.free, k.end)
    modifies k
    ensures FreeOk(k.mem, k.free, k.end) && SameOutside(old(k.mem), k.mem, FreeSet(old(k.free)))
    ensures root == 0 ==> k.free == old(k.free)
    ensures root != 0 <==> |old(k.free)| >= 1
    ensures root != 0 ==> |k.free| + 1 == |old(k.free)|
    ensures root != 0 ==> Valid(k.mem, k.free, k.end, t) && t == Tree(root, map[], map[], map[])
    ensures root != 0 ==> TablePages(t) == {root} && FreeSet(old(k.free)) == FreeSet(k.free) + {root}
  {
    root := k.Kalloc();
    t := Tree(root, map[], map[], map[]);
    if root == 0 { return; }
    k.mem := k.mem[root := EmptyTable()];
    EmptyWf(k.mem, root);
  }

  /** The kernel's part of every address space: the trampoline, and the process's trapframe below it. */
  ghost predicate Upper(leaf: map<int, Pte>, tramp: int, tf: int) {
    forall w :: w >= USERPAGES ==>
      && (w in leaf <==> w == USERPAGES || w == USERPAGES + 1)
      && (w == USERPAGES + 1 ==> leaf[w] == Pte(tramp, Flags(true, false, true, false)))
      && (w == USERPAGES ==> leaf[w] == Pte(tf, Flags(true, true, false, false)))
  }

  /** Page tables without user pages. */
  ghost predicate Bare(mem: Mem, free: seq<int>, mem': Mem, free': seq<int>, t: Tree) {
    && TablePages(t) + FreeSet(free') == FreeSet(free) && SameOutside(mem, mem', FreeSet(free))
    && (forall w :: w in t.leaf ==> w >= USERPAGES)
    && (forall w :: w in t.leaf && t.leaf[w].Pte? ==> !t.leaf[w].flags.u)
  }

  lemma BareGrown(m0: Mem, f0: seq<int>, m1: Mem, f1: seq<int>, t1: Tree, m2: Mem, f2: seq<int>, t2: Tree)
    requires Bare(m0, f0, m1, f1, t1) && Grown(m1, f1, t1, m2, f2, t2)
    requires forall w :: w in t2.leaf ==> w >= USERPAGES && (t2.leaf[w].Pte? ==> !t2.leaf[w].flags.u)
    ensures Bare(m0, f0, m2, f2, t2)
  {
  }

  lemma BareSpace(m0: Mem, f0: seq<int>, mem: Mem, free: seq<int>, end: int, t: Tree)
    requires Bare(m0, f0, mem, free, t) && Valid(mem, free, end, t)
    ensures SpaceOk(mem, free, end, t, 0) && Owned(t) == TablePages(t)
  {
    hide Valid;
    assert forall w, p :: Leads(t.leaf, w, p) ==> w in t.leaf;
  }

  /** Map one of the kernel's two pages into a new page table. */
  method MapUpper(k: Kernel, root: int, va: int, ppn: int, fl: Flags, ghost t: Tree, ghost m0: Mem, ghost f0: seq<int>)
      returns (r: int, ghost t': Tree)
    requires Valid(k.mem, k.free, k.end, t) && Bare(m0, f0, k.mem, k.free, t) && root == t.root
    requires (va == TRAMPOLINE || va == TRAPFRAME) && va / PGSIZE !in t.leaf && !fl.u
    modifies k
    ensures Valid(k.mem, k.free, k.end, t') && Bare(m0, f0, k.mem, k.free, t') && root == t'.root
    ensures SpaceOk(k.mem, k.free, k.end, t', 0) && Owned(t') == TablePages(t')
    ensures (r == 0 && t'.leaf == t.leaf[va / PGSIZE := Pte(ppn, fl)]) || (r == -1 && t'.leaf == t.leaf)
    ensures r == 0 <==> |old(k.free)| >= Missing(t, {va / PGSIZE})
    ensures r == 0 ==> TablesMade(old(k.free), t, k.free, t', va / PGSIZE)
  {
    hide Valid, FramesOk, FreeOk, Missing, Needed, Range, Covers, Grown, SpaceOk, Owned, TablePages;
    NeededOne(t, va / PGSIZE);
    ghost var m1, f1 := k.mem, k.free;
    ghost var done;
    r, t', done := k.MapPages(root, va, PGSIZE, ppn, fl, t);
    assert Mapped(t.leaf, va / PGSIZE, 0, ppn, fl) == t.leaf;
    assert t'.leaf == if r == 0 then t.leaf[va / PGSIZE := Pte(ppn, fl)] else t.leaf;
    SameRoot(m1, f1, t, k.mem, k.free, t');
    BareGrown(m0, f0, m1, f1, t, k.mem, k.free, t');
    BareSpace(m0, f0, k.mem, k.free, k.end, t');
  }

  /** Give a new page table back. */
  method Discard(k: Kernel, root: int, ghost t: Tree, ghost m0: Mem, ghost f0: seq<int>)
    requires SpaceOk(k.mem, k.free, k.end, t, 0) && Owned(t) == TablePages(t) && root == t.root
    requires Bare(m0, f0, k.mem, k.free, t) && t.leaf == map[]
    modifies k
    ensures FreeOk(k.mem, k.free, k.end) && FreeSet(k.free) == FreeSet(f0) && SameOutside(m0, k.mem, FreeSet(f0))
  {
    hide SpaceOk, FreeOk;
    UvmFree(k, root, 0, t);
  }

  /** The page-table pages over the trampoline and the trapframe, and no others. */
  ghost predicate UpperTables(t: Tree) {
    t.mid.Keys == {255} && t.low.Keys == {0x1_ffff}
  }

  /** The first mapping in an empty table makes two page-table pages. */
  lemma TrampolineTables(root: int, t0: Tree, t: Tree)
    requires t0 == Tree(root, map[], map[], map[])
    ensures Missing(t0, {TRAMPOLINE / PGSIZE}) == 2
    ensures Covers(t0, t, TRAMPOLINE / PGSIZE) ==> UpperTables(t)
  {
    LacksOne(t0.mid.Keys, t0.low.Keys, TRAMPOLINE / PGSIZE);
  }

  /** The trapframe is under the same page-table pages. */
  lemma TrapframeTables(t2: Tree, t: Tree)
    requires UpperTables(t2)
    ensures Missing(t2, {TRAPFRAME / PGSIZE}) == 0
    ensures Covers(t2, t, TRAPFRAME / PGSIZE) ==> UpperTables(t)
  {
    LacksOne(t2.mid.Keys, t2.low.Keys, TRAPFRAME / PGSIZE);
  }

  /** proc_pagetable: the trampoline and the trapframe, and no user memory; on failure no page is lost. */
  method ProcPagetable(k: Kernel, tramp: int, tf: int) returns (root: int, ghost t: Tree)
    requires FreeOk(k.mem, k.free, k.end)
    modifies k
    ensures FreeOk(k.mem, k.free, k.end) && SameOutside(old(k.mem), k.mem, FreeSet(old(k.free)))
    ensures root == 0 ==> FreeSet(k.free) == FreeSet(old(k.free))
    ensures root != 0 <==> |old(k.free)| >= 3
    ensures root != 0 ==> |k.free| + 3 == |old(k.free)| && UpperTables(t)
    ensures root != 0 ==> SpaceOk(k.mem, k.free, k.end, t, 0) && t.root == root && Upper(t.leaf, tramp, tf)
    ensures root != 0 ==> FreeSet(old(k.free)) == FreeSet(k.free) + Owned(t) && Owned(t) == TablePages(t)
  {
    hide Valid, FramesOk, Bare, Owned, TablePages, SameOutside, Below, FreeOk, Covers, Missing, UpperTables;
    ghost var m0, f0 := k.mem, k.free;
    root, t := UvmCreate(k);
    if root == 0 { return; }
    BareNew(m0, f0, k.mem, k.free, t);
    var r;
    ghost var t0 := t;
    r, t := MapUpper(k, root, TRAMPOLINE, tramp, Flags(true, false, true, false), t, m0, f0);
    TrampolineTables(root, t0, t);
    if r < 0 {
      Discard(k, root, t, m0, f0);
      return 0, t;
    }
    ghost var t2 := t;
    r, t := MapUpper(k, root, TRAPFRAME, tf, Flags(true, true, false, false), t, m0, f0);
    TrapframeTables(t2, t);
    if r < 0 {
      // No page is needed here, so the source's way back from this mapping is never taken.
      assert false;
    }
    BareDone(m0, f0, k.mem, k.free, k.end, t);
  }

  lemma BareNew(m0: Mem, f0: seq<int>, m1: Mem, f1: seq<int>, t: Tree)
    requires t.leaf == map[] && FreeSet(f0) == FreeSet(f1) + TablePages(t) && SameOutside(m0, m1, FreeSet(f0))
    ensures Bare(m0, f0, m1, f1, t)
  {
  }

  lemma BareDone(m0: Mem, f0: seq<int>, mem: Mem, free: seq<int>, end: int, t: Tree)
    requires Bare(m0, f0, mem, free, t) && Valid(mem, free, end, t)
    ensures FreeSet(f0) == FreeSet(free) + TablePages(t) && SameOutside(m0, mem, FreeSet(f0)) && FreeOk(mem, free, end)
  {
    hide Wf;
  }

  /** proc_freepagetable: everything the address space was made of is free; the trampoline and trapframe are not. */
  method ProcFreePagetable(k: Kernel, root: int, sz: int, ghost t: Tree, ghost tramp: int, ghost tf: int)
    requires SpaceOk(k.mem, k.free, k.end, t, sz) && root == t.root && Upper(t.leaf, tramp, tf)
    modifies k
    ensures FreeOk(k.mem, k.free, k.end)
    ensures FreeSet(k.free) == FreeSet(old(k.free)) + Owned(t)
    ensures SameOutside(old(k.mem), k.mem, Owned(t))
  {
    hide Valid, FramesOk, FreeOk;
    ghost var t1 := k.UvmUnmap(root, TRAMPOLINE, 1, false, t);
    ghost var t2 := k.UvmUnmap(root, TRAPFRAME, 1, false, t1);
    UpperGone(old(k.mem), old(k.free), k.end, t, k.mem, k.free, t2, sz, tramp, tf);
    UvmFree(k, root, sz, t2);
  }

  lemma UpperGone(mem: Mem, free: seq<int>, end: int, t: Tree, mem': Mem, free': seq<int>, t': Tree, sz: int,
      tramp: int, tf: int)
    requires SpaceOk(mem, free, end, t, sz) && Upper(t.leaf, tramp, tf) && Valid(mem', free', end, t')
    requires t' == t.(leaf := Cleared(Cleared(t.leaf, USERPAGES + 1, 1), USERPAGES, 1))
    requires FreeSet(free') == FreeSet(free) && SameOutside(mem, mem', TablePages(t))
    ensures SpaceOk(mem', free', end, t', sz) && Owned(t') == Owned(t)
    ensures forall w :: w in t'.leaf ==> w < USERPAGES
  {
    hide Valid;
    assert TablePages(t') == TablePages(t);
    assert forall w :: w < USERPAGES ==> (w in t'.leaf <==> w in t.leaf) && (w in t.leaf ==> t'.leaf[w] == t.leaf[w]);
    forall w, q | 0 <= w < USERPAGES && Leads(t'.leaf, w, q)
      ensures Leads(t.leaf, w, q) && FrameOk(mem', free', end, t', q) && IsFrame(mem', q)
    {
      assert Leads(t.leaf, w, q);
      assert q !in FreeSet(free');
    }
    assert Ppns(t'.leaf, 0, USERPAGES) == Ppns(t.leaf, 0, USERPAGES) by {
      forall q | q in Ppns(t.leaf, 0, USERPAGES) ensures q in Ppns(t'.leaf, 0, USERPAGES) {
        var w :| w in t.leaf && 0 <= w < USERPAGES && t.leaf[w].Pte? && t.leaf[w].ppn == q;
        assert t'.leaf[w].ppn == q;
      }
      forall q | q in Ppns(t'.leaf, 0, USERPAGES) ensures q in Ppns(t.leaf, 0, USERPAGES) {
        var w :| w in t'.leaf && 0 <= w < USERPAGES && t'.leaf[w].Pte? && t'.leaf[w].ppn == q;
        assert t.leaf[w].ppn == q;
      }
    }
  }
}
