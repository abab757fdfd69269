/**
  User address spaces: growing, shrinking and lazy allocation (vm.c, growproc and
  sys_sbrk).

  A user sees an array of pages.  A page below the process size that has no
  translation yet reads as zeroes, because vmfault will supply a zeroed page.
 */
module UserMem {
  import opened Params
  import opened Sv39
  import opened Vm
  import opened PageCost

  const USERPAGES := 0x3ff_fffe              // page number of TRAPFRAME
  const TRAPFRAME := 0x3f_ffff_e000

  /** PGROUNDUP(a) / PGSIZE */
  function PageUp(a: int): int {
    (a + 4095) / 4096
  }

  function ZeroPage(): (z: seq<int>)
    ensures |z| == PGSIZE && forall i :: 0 <= i < PGSIZE ==> z[i] == 0
  {
    seq(4096, i => 0)
  }

  /** Page w as the user sees it. */
  ghost function PageOf(mem: Mem, leaf: map<int, Pte>, w: int): seq<int> {
    if w in leaf && leaf[w].Pte? && leaf[w].ppn in mem && mem[leaf[w].ppn].Frame?
    then mem[leaf[w].ppn].bytes else ZeroPage()
  }

  ghost predicate SameView(mem: Mem, t: Tree, mem': Mem, t': Tree) {
    forall w :: 0 <= w < USERPAGES ==> PageOf(mem', t'.leaf, w) == PageOf(mem, t.leaf, w)
  }

  ghost predicate IsFrame(mem: Mem, p: int) {
    p in mem && mem[p].Frame? && |mem[p].bytes| == PGSIZE
  }

  /** User pages lead to distinct page frames that are in no other use; the pages above them are the kernel's. */
  ghost predicate FramesOk(mem: Mem, free: seq<int>, end: int, t: Tree) {
    && OwnFrames(mem, free, end, t, 0, USERPAGES)
    && (forall w :: w in t.leaf && w >= USERPAGES && t.leaf[w].Pte? ==> !t.leaf[w].flags.u)
    && (forall w, p :: 0 <= w < USERPAGES && Leads(t.leaf, w, p) ==> IsFrame(mem, p))
  }

  ghost predicate Below(leaf: map<int, Pte>, n: int) {
    forall w :: w in leaf && w < USERPAGES ==> w < n
  }

  /** An address space of size sz. */
  ghost predicate SpaceOk(mem: Mem, free: seq<int>, end: int, t: Tree, sz: int) {
    Valid(mem, free, end, t) && FramesOk(mem, free, end, t) && 0 <= sz <= TRAPFRAME && Below(t.leaf, PageUp(sz))
  }

  /** The pages an address space is made of. */
  ghost function Owned(t: Tree): set<int> {
    TablePages(t) + Ppns(t.leaf, 0, USERPAGES)
  }

  /** Pages move only between the address space and the free list, and no other page is written. */
  ghost predicate Conserved(mem: Mem, free: seq<int>, t: Tree, mem': Mem, free': seq<int>, t': Tree) {
    && t'.root == t.root
    && Owned(t') + FreeSet(free') == Owned(t) + FreeSet(free)
    && SameOutside(mem, mem', Owned(t) + FreeSet(free))
  }

  lemma ConservedTwice(m0: Mem, f0: seq<int>, t0: Tree, m1: Mem, f1: seq<int>, t1: Tree, m2: Mem, f2: seq<int>,
      t2: Tree)
    requires Conserved(m0, f0, t0, m1, f1, t1) && Conserved(m1, f1, t1, m2, f2, t2)
    ensures Conserved(m0, f0, t0, m2, f2, t2)
  {
  }

  lemma NoChange(mem: Mem, free: seq<int>, end: int, t: Tree)
    requires Valid(mem, free, end, t)
    ensures FreeOk(mem, free, end) && Conserved(mem, free, t, mem, free, t) && SameView(mem, t, mem, t)
  {
  }

  // ---------------------------------------------------------------- one more page

  /** The view of t, with page v reading as bytes. */
  ghost predicate PutView(mem: Mem, t: Tree, mem': Mem, t': Tree, v: int, bytes: seq<int>) {
    forall w :: 0 <= w < USERPAGES ==> PageOf(mem', t'.leaf, w) == if w == v then bytes else PageOf(mem, t.leaf, w)
  }

  lemma AddedFrames(mem: Mem, free: seq<int>, end: int, t: Tree, p: int, v: int, fl: Flags, bytes: seq<int>,
      f1: seq<int>, mem': Mem, free': seq<int>, t': Tree)
    requires FramesOk(mem, free, end, t) && p in free && p in mem && end <= p < PHYSTOP && p !in TablePages(t)
    requires 0 <= v < USERPAGES && v !in t.leaf && |bytes| == PGSIZE
    requires FreeSet(f1) == FreeSet(free) - {p} && Grown(mem[p := Frame(bytes)], f1, t, mem', free', t')
    requires t'.leaf == t.leaf[v := Pte(p, fl)]
    ensures FramesOk(mem', free', end, t')
  {
    var l, l' := t.leaf, t'.leaf;
    forall w, q | 0 <= w < USERPAGES && Leads(l', w, q)
      ensures FrameOk(mem', free', end, t', q) && IsFrame(mem', q)
      ensures w != v ==> Leads(l, w, q) && q in mem && q !in free
    {
      if w != v { assert Leads(l, w, q); }
      assert q !in TablePages(t) && q !in FreeSet(f1);
    }
  }

  lemma AddedView(mem: Mem, free: seq<int>, end: int, t: Tree, p: int, v: int, fl: Flags, bytes: seq<int>,
      f1: seq<int>, mem': Mem, free': seq<int>, t': Tree)
    requires FramesOk(mem, free, end, t) && p in free && p in mem && p !in TablePages(t)
    requires 0 <= v < USERPAGES && v !in t.leaf
    requires FreeSet(f1) == FreeSet(free) - {p} && Grown(mem[p := Frame(bytes)], f1, t, mem', free', t')
    requires t'.leaf == t.leaf[v := Pte(p, fl)]
    ensures PutView(mem, t, mem', t', v, bytes)
  {
    var l, l' := t.leaf, t'.leaf;
    forall w | 0 <= w < USERPAGES ensures PageOf(mem', l', w) == if w == v then bytes else PageOf(mem, l, w) {
      if w != v && w in l && l[w].Pte? {
        var q := l[w].ppn;
        assert Leads(l, w, q);
        assert q !in TablePages(t) && q !in FreeSet(f1) && q != p;
      } else if w == v {
        assert p !in TablePages(t) && p !in FreeSet(f1);
      }
    }
  }

  lemma PpnsAdd(leaf: map<int, Pte>, v: int, e: Pte)
    requires 0 <= v < USERPAGES && v !in leaf && e.Pte?
    ensures Ppns(leaf[v := e], 0, USERPAGES) == Ppns(leaf, 0, USERPAGES) + {e.ppn}
  {
    var l' := leaf[v := e];
    forall p | p in Ppns(leaf, 0, USERPAGES) + {e.ppn} ensures p in Ppns(l', 0, USERPAGES) {
      if p in Ppns(leaf, 0, USERPAGES) {
        var w :| w in leaf && 0 <= w < USERPAGES && leaf[w].Pte? && leaf[w].ppn == p;
        assert l'[w].ppn == p;
      } else {
        assert l'[v].ppn == p;
      }
    }
  }

  lemma AddedPage(mem: Mem, free: seq<int>, end: int, t: Tree, p: int, v: int, fl: Flags, bytes: seq<int>,
      f1: seq<int>, mem': Mem, free': seq<int>, t': Tree)
    requires Valid(mem, free, end, t) && FramesOk(mem, free, end, t) && p in free && FreeSet(f1) == FreeSet(free) - {p}
    requires 0 <= v < USERPAGES && v !in t.leaf && t'.leaf == t.leaf[v := Pte(p, fl)] && |bytes| == PGSIZE
    requires Grown(mem[p := Frame(bytes)], f1, t, mem', free', t')
    ensures FramesOk(mem', free', end, t') && PutView(mem, t, mem', t', v, bytes)
    ensures Conserved(mem, free, t, mem', free', t')
  {
    AddedFrames(mem, free, end, t, p, v, fl, bytes, f1, mem', free', t');
    AddedView(mem, free, end, t, p, v, fl, bytes, f1, mem', free', t');
    PpnsAdd(t.leaf, v, Pte(p, fl));
    hide FramesOk, PutView, Valid;
    assert p in FreeSet(free);
    PageMoves(TablePages(t), FreeSet(free), Ppns(t.leaf, 0, USERPAGES), TablePages(t'), FreeSet(f1), FreeSet(free'), p);
  }

  lemma PageMoves(tables: set<int>, free: set<int>, pages: set<int>, tables': set<int>, f1: set<int>,
      free': set<int>, p: int)
    requires f1 == free - {p} && p in free && tables' + free' == tables + f1
    ensures tables' + (pages + {p}) + free' == tables + pages + free
  {
    assert tables' + (pages + {p}) + free' == (tables' + free') + (pages + {p});
  }

  lemma TakenPage(mem: Mem, free: seq<int>, end: int, t: Tree, p: int, f1: seq<int>, mem': Mem)
    requires Valid(mem, free, end, t) && p in free && FreeSet(f1) == FreeSet(free) - {p}
    requires FreeOk(mem', f1, end) && SameOutside(mem, mem', {p})
    ensures Valid(mem', f1, end, t) && p !in TablePages(t) && end <= p < PHYSTOP && p in mem && p !in f1
  {
    assert forall q :: q in f1 ==> q in FreeSet(f1);
    assert p !in FreeSet(f1);
    WfOutside(mem, mem', t);
  }

  /** A page taken for the user and given back: only the page table may have grown. */
  lemma GivenBack(mem: Mem, free: seq<int>, end: int, t: Tree, p: int,
      f1: seq<int>, m1: Mem, m2: Mem, f2: seq<int>, t': Tree, mem': Mem, free': seq<int>)
    requires Valid(mem, free, end, t) && p in free && FreeSet(f1) == FreeSet(free) - {p} && SameOutside(mem, m1, {p})
    requires Grown(m1, f1, t, m2, f2, t') && Valid(m2, f2, end, t') && t'.leaf == t.leaf
    requires FreeOk(mem', free', end) && SameOutside(m2, mem', {p}) && FreeSet(free') == FreeSet(f2) + {p}
    ensures Valid(mem', free', end, t')
    ensures TablePages(t') + FreeSet(free') == TablePages(t) + FreeSet(free) && t'.root == t.root
    ensures SameOutside(mem, mem', TablePages(t) + FreeSet(free))
  {
    hide Wf;
    assert p !in TablePages(t');
    WfOutside(m2, mem', t');
    assert forall q :: q in free' <==> q in FreeSet(free');
    assert p in FreeSet(free);
    BackAgain(TablePages(t), FreeSet(free), FreeSet(f1), TablePages(t'), FreeSet(f2), FreeSet(free'), p);
  }

  lemma BackAgain(tables: set<int>, free: set<int>, f1: set<int>, tables': set<int>, f2: set<int>,
      free': set<int>, p: int)
    requires p in free && f1 == free - {p} && tables' + f2 == tables + f1 && free' == f2 + {p}
    ensures tables' + free' == tables + free
  {
    assert f1 + {p} == free;
    assert tables' + free' == (tables' + f2) + {p} == tables + (f1 + {p});
  }

  /** Growing the page table does not touch the user's pages. */
  lemma FramesStay(mem: Mem, free: seq<int>, end: int, t: Tree, mem': Mem, free': seq<int>, t': Tree)
    requires FramesOk(mem, free, end, t) && t'.leaf == t.leaf && t'.root == t.root
    requires TablePages(t') + FreeSet(free') == TablePages(t) + FreeSet(free)
    requires SameOutside(mem, mem', TablePages(t) + FreeSet(free))
    ensures FramesOk(mem', free', end, t') && SameView(mem, t, mem', t') && Conserved(mem, free, t, mem', free', t')
  {
    forall w, q | 0 <= w < USERPAGES && Leads(t.leaf, w, q)
      ensures FrameOk(mem', free', end, t', q) && IsFrame(mem', q) && mem'[q] == mem[q]
    {
      assert q !in TablePages(t) && q !in FreeSet(free);
      assert q !in FreeSet(free');
    }
    forall w | 0 <= w < USERPAGES ensures PageOf(mem', t'.leaf, w) == PageOf(mem, t.leaf, w) {
      if w in t.leaf && t.leaf[w].Pte? { assert Leads(t.leaf, w, t.leaf[w].ppn); }
    }
  }

  /** kalloc, fill and map one user page: the common part of uvmalloc, vmfault and uvmcopy. */
  method MapFilled(k: Kernel, root: int, va: int, bytes: seq<int>, fl: Flags, ghost t: Tree) returns (p: int,
      ghost t': Tree)
    requires Valid(k.mem, k.free, k.end, t) && FramesOk(k.mem, k.free, k.end, t) && root == t.root && |bytes| == PGSIZE
    requires 0 <= va && va % PGSIZE == 0 && va / PGSIZE < USERPAGES && va / PGSIZE !in t.leaf
    modifies k
    ensures Valid(k.mem, k.free, k.end, t') && FramesOk(k.mem, k.free, k.end, t')
    ensures t'.leaf == if p != 0 then t.leaf[va / PGSIZE := Pte(p, fl)] else t.leaf
    ensures p == 0 ==> SameView(old(k.mem), t, k.mem, t') && OutOfMemory(k.free, t', va / PGSIZE)
    ensures p != 0 ==> PutView(old(k.mem), t, k.mem, t', va / PGSIZE, bytes)
    ensures Conserved(old(k.mem), old(k.free), t, k.mem, k.free, t')
    ensures p != 0 <==> |old(k.free)| >= Needed(t, {va / PGSIZE})
    ensures p != 0 ==> PageMade(old(k.free), t, k.free, t', va / PGSIZE)
  {
    hide Valid, FramesOk, Conserved, SameView, PutView, FreeOk, Grown, Needed, Missing, Range, OutOfMemory;
    hide Covers, LowOf, FreeSet;
    NeededOne(t, va / PGSIZE);
    NoChange(k.mem, k.free, k.end, t);
    t' := t;
    p := k.Kalloc();
    if p == 0 { TooFew(k.free, t, va / PGSIZE); return; }
    ghost var f1 := k.free;
    StillFree(k.mem, f1, k.end, p, Frame(bytes));
    k.mem := k.mem[p := Frame(bytes)];
    ghost var m1 := k.mem;
    assert m1 == old(k.mem)[p := Frame(bytes)];
    TakenPage(old(k.mem), old(k.free), k.end, t, p, f1, m1);
    var r; ghost var done;
    r, t', done := k.MapPages(root, va, PGSIZE, p, fl, t);
    ghost var m2, f2 := k.mem, k.free;
    if r != 0 {
      assert done == 0;
      TakenIsKept(f1, k.end, t, p, m1, m2, f2, t');
      k.Kfree(p);
      GivenBack(old(k.mem), old(k.free), k.end, t, p, f1, m1, m2, f2, t', k.mem, k.free);
      FramesStay(old(k.mem), old(k.free), k.end, t, k.mem, k.free, t');
      TooFew(k.free, t', va / PGSIZE);
      p := 0;
    } else {
      assert Mapped(t.leaf, va / PGSIZE, 0, p, fl) == t.leaf;
      AddedPage(old(k.mem), old(k.free), k.end, t, p, va / PGSIZE, fl, bytes, f1, k.mem, k.free, t');
    }
  }

  /** A fresh page is cleared, so that it reads as before. */
  method MapFresh(k: Kernel, root: int, va: int, fl: Flags, ghost t: Tree) returns (p: int, ghost t': Tree)
    requires Valid(k.mem, k.free, k.end, t) && FramesOk(k.mem, k.free, k.end, t) && root == t.root
    requires 0 <= va && va % PGSIZE == 0 && va / PGSIZE < USERPAGES && va / PGSIZE !in t.leaf
    modifies k
    ensures Valid(k.mem, k.free, k.end, t') && FramesOk(k.mem, k.free, k.end, t')
    ensures t'.leaf == if p != 0 then t.leaf[va / PGSIZE := Pte(p, fl)] else t.leaf
    ensures SameView(old(k.mem), t, k.mem, t')
    ensures Conserved(old(k.mem), old(k.free), t, k.mem, k.free, t')
    ensures p == 0 ==> OutOfMemory(k.free, t', va / PGSIZE)
    ensures p != 0 <==> |old(k.free)| >= Needed(t, {va / PGSIZE})
    ensures p != 0 ==> PageMade(old(k.free), t, k.free, t', va / PGSIZE)
  {
    hide Valid, FramesOk, Conserved;
    p, t' := MapFilled(k, root, va, ZeroPage(), fl, t);
  }

  lemma StillFree(mem: Mem, free: seq<int>, end: int, p: int, page: Page)
    requires FreeOk(mem, free, end)
    ensures FreeOk(mem[p := page], free, end)
  {
  }

  lemma TakenIsKept(f1: seq<int>, end: int, t: Tree, p: int, m1: Mem, m2: Mem, f2: seq<int>, t': Tree)
    requires p in m1 && p !in f1 && Grown(m1, f1, t, m2, f2, t') && Valid(m2, f2, end, t')
    ensures p in m2 && p !in f2 && FreeOk(m2, f2, end)
  {
    assert p !in FreeSet(f1);
  }

  // ---------------------------------------------------------------- shrinking

  /** The view of t', with the n pages from v on reading as zeroes. */
  ghost predicate CutView(mem: Mem, t: Tree, mem': Mem, t': Tree, v: int, n: int) {
    forall w :: 0 <= w < USERPAGES ==>
      PageOf(mem', t'.leaf, w) == if v <= w < v + n then ZeroPage() else PageOf(mem, t.leaf, w)
  }

  lemma OwnPart(mem: Mem, free: seq<int>, end: int, t: Tree, v: int, n: int)
    requires FramesOk(mem, free, end, t) && 0 <= v && v + n <= USERPAGES
    ensures OwnFrames(mem, free, end, t, v, n)
  {
  }

  lemma PpnsSplit(leaf: map<int, Pte>, v: int, n: int)
    requires 0 <= v && v + n <= USERPAGES
    ensures Ppns(leaf, 0, USERPAGES) == Ppns(Cleared(leaf, v, n), 0, USERPAGES) + Ppns(leaf, v, n)
  {
    forall p | p in Ppns(leaf, 0, USERPAGES) ensures p in Ppns(Cleared(leaf, v, n), 0, USERPAGES) + Ppns(leaf, v, n) {
      var w :| w in leaf && 0 <= w < USERPAGES && leaf[w].Pte? && leaf[w].ppn == p;
      assert w in Cleared(leaf, v, n) || v <= w < v + n;
    }
  }

  /** A page that stays mapped is none of those that go. */
  lemma StaysApart(mem: Mem, free: seq<int>, end: int, t: Tree, v: int, n: int, w: int, q: int)
    requires FramesOk(mem, free, end, t) && 0 <= v && v + n <= USERPAGES
    requires 0 <= w < USERPAGES && !(v <= w < v + n) && Leads(t.leaf, w, q)
    ensures q !in Ppns(t.leaf, v, n)
  {
    if q in Ppns(t.leaf, v, n) {
      var u :| u in t.leaf && v <= u < v + n && t.leaf[u].Pte? && t.leaf[u].ppn == q;
      assert Leads(t.leaf, u, q);
    }
  }

  lemma CutFrames(mem: Mem, free: seq<int>, end: int, t: Tree, mem': Mem, free': seq<int>, t': Tree, v: int, n: int)
    requires FramesOk(mem, free, end, t) && 0 <= v && v + n <= USERPAGES
    requires Unmapped(mem, free, t, mem', free', t', v, n, true)
    ensures FramesOk(mem', free', end, t') && CutView(mem, t, mem', t', v, n)
  {
    forall w, q | 0 <= w < USERPAGES && Leads(t'.leaf, w, q)
      ensures Leads(t.leaf, w, q) && FrameOk(mem', free', end, t', q) && IsFrame(mem', q)
    {
      assert Leads(t.leaf, w, q);
      StaysApart(mem, free, end, t, v, n, w, q);
      assert q !in FreeSet(free);
      assert q !in FreeSet(free') && TablePages(t') == TablePages(t);
    }
    forall w | 0 <= w < USERPAGES
      ensures PageOf(mem', t'.leaf, w) == if v <= w < v + n then ZeroPage() else PageOf(mem, t.leaf, w)
    {
      if w in t.leaf && t.leaf[w].Pte? && !(v <= w < v + n) {
        var q := t.leaf[w].ppn;
        assert Leads(t.leaf, w, q);
        StaysApart(mem, free, end, t, v, n, w, q);
      }
    }
  }

  lemma CutConserves(mem: Mem, free: seq<int>, t: Tree, mem': Mem, free': seq<int>, t': Tree, v: int, n: int)
    requires 0 <= v && v + n <= USERPAGES && Unmapped(mem, free, t, mem', free', t', v, n, true)
    ensures Conserved(mem, free, t, mem', free', t')
  {
    PpnsSplit(t.leaf, v, n);
    assert TablePages(t') == TablePages(t);
  }

  /** uvmdealloc: the pages past newsz go back to the allocator; all others are as before. */
  method UvmDealloc(k: Kernel, root: int, oldsz: int, newsz: int, ghost t: Tree) returns (r: int, ghost t': Tree)
    requires Valid(k.mem, k.free, k.end, t) && FramesOk(k.mem, k.free, k.end, t) && root == t.root
    requires 0 <= oldsz <= TRAPFRAME && 0 <= newsz
    modifies k
    ensures Valid(k.mem, k.free, k.end, t') && FramesOk(k.mem, k.free, k.end, t')
    ensures r == if newsz >= oldsz then oldsz else newsz
    ensures t'.leaf == Cleared(t.leaf, PageUp(newsz), PageUp(oldsz) - PageUp(newsz))
    ensures CutView(old(k.mem), t, k.mem, t', PageUp(newsz), PageUp(oldsz) - PageUp(newsz))
    ensures Conserved(old(k.mem), old(k.free), t, k.mem, k.free, t')
  {
    hide Valid, FramesOk, Conserved;
    NoChange(k.mem, k.free, k.end, t);
    t' := t;
    assert PageUp(oldsz) <= PageUp(newsz) ==> Cleared(t.leaf, PageUp(newsz), PageUp(oldsz) - PageUp(newsz)) == t.leaf;
    if newsz >= oldsz { return oldsz, t; }
    if PageUp(newsz) < PageUp(oldsz) {
      var npages := PageUp(oldsz) - PageUp(newsz);
      OwnPart(k.mem, k.free, k.end, t, PageUp(newsz), npages);
      t' := k.UvmUnmap(root, PageUp(newsz) * PGSIZE, npages, true, t);
      CutFrames(old(k.mem), old(k.free), k.end, t, k.mem, k.free, t', PageUp(newsz), npages);
      CutConserves(old(k.mem), old(k.free), t, k.mem, k.free, t', PageUp(newsz), npages);
    }
    r := newsz;
  }

  // ---------------------------------------------------------------- growing

  /** leaf plus translations with flags fl for exactly the pages from lo to hi. */
  ghost predicate Extended(leaf: map<int, Pte>, leaf': map<int, Pte>, lo: int, hi: int, fl: Flags) {
    && (forall w :: w in leaf' <==> w in leaf || lo <= w < hi)
    && (forall w :: w in leaf ==> w in leaf' && leaf'[w] == leaf[w])
    && (forall w :: lo <= w < hi ==> w in leaf' && leaf'[w].Pte? && leaf'[w].flags == fl)
  }

  lemma ExtendedNext(leaf: map<int, Pte>, l1: map<int, Pte>, lo: int, hi: int, fl: Flags, p: int)
    requires Extended(leaf, l1, lo, hi, fl) && lo <= hi && hi !in leaf
    ensures Extended(leaf, l1[hi := Pte(p, fl)], lo, hi + 1, fl)
  {
  }

  /** Undoing an extension restores the address space. */
  lemma ExtendedUndone(leaf: map<int, Pte>, l1: map<int, Pte>, lo: int, hi: int, fl: Flags)
    requires Extended(leaf, l1, lo, hi, fl) && forall w :: lo <= w < hi ==> w !in leaf
    ensures Cleared(l1, lo, hi - lo) == leaf
  {
    var c := Cleared(l1, lo, hi - lo);
    forall w ensures w in c <==> w in leaf {}
    forall w | w in c ensures c[w] == leaf[w] { assert w in leaf; }
  }

  lemma UndoneView(m0: Mem, t0: Tree, m1: Mem, t1: Tree, m2: Mem, t2: Tree, lo: int, hi: int)
    requires SameView(m0, t0, m1, t1) && CutView(m1, t1, m2, t2, lo, hi - lo)
    requires forall w :: lo <= w < hi ==> w !in t0.leaf
    ensures SameView(m0, t0, m2, t2)
  {
  }

  lemma ViewTwice(m0: Mem, t0: Tree, m1: Mem, t1: Tree, m2: Mem, t2: Tree)
    requires SameView(m0, t0, m1, t1) && SameView(m1, t1, m2, t2)
    ensures SameView(m0, t0, m2, t2)
  {
  }

  /**
    uvmalloc: every page up to newsz is present, or the address space is as it was.  A size past
    the trapframe page is no harm if memory runs out before the pages get there.
   */
  method UvmAlloc(k: Kernel, root: int, oldsz: int, newsz: int, xw: bool, xx: bool,
      ghost t: Tree) returns (r: int, ghost t': Tree)
    requires Valid(k.mem, k.free, k.end, t) && FramesOk(k.mem, k.free, k.end, t) && root == t.root
    requires 0 <= oldsz <= TRAPFRAME && 0 <= newsz && Below(t.leaf, PageUp(oldsz))
    requires newsz <= TRAPFRAME || PageUp(oldsz) + |k.free| < USERPAGES
    modifies k
    ensures Valid(k.mem, k.free, k.end, t') && FramesOk(k.mem, k.free, k.end, t')
    ensures newsz < oldsz ==> r == oldsz && t' == t && k.mem == old(k.mem) && k.free == old(k.free)
    ensures newsz >= oldsz ==> r == newsz || r == 0
    ensures newsz > TRAPFRAME ==> r == 0
    ensures newsz >= oldsz && r == newsz ==>
      Extended(t.leaf, t'.leaf, PageUp(oldsz), PageUp(newsz), Flags(true, xw, xx, true))
    ensures r == 0 != newsz ==> t'.leaf == t.leaf
    ensures newsz >= oldsz ==>
      (r == newsz <==> |old(k.free)| >= Needed(t, Range(PageUp(oldsz), PageUp(newsz))))
    ensures SameView(old(k.mem), t, k.mem, t')
    ensures Conserved(old(k.mem), old(k.free), t, k.mem, k.free, t')
  {
    hide Valid, FramesOk, Conserved, SameView, CutView, Extended, Needed, Range;
    NoChange(k.mem, k.free, k.end, t);
    if newsz < oldsz { return oldsz, t; }
    ghost var all, top := Needed(t, Range(PageUp(oldsz), PageUp(newsz))), PageUp(newsz);
    var fl := Flags(true, xw, xx, true);
    var lo := PageUp(oldsz);
    var a := lo * PGSIZE;
    ghost var hi := lo;
    t' := t;
    assert Extended(t.leaf, t.leaf, lo, lo, fl) by { ExtendedNone(t.leaf, lo, fl); }
    while a < newsz
      invariant lo <= hi <= PageUp(newsz) && a == 4096 * hi && (newsz > TRAPFRAME ==> hi + |k.free| < USERPAGES)
      invariant Valid(k.mem, k.free, k.end, t') && FramesOk(k.mem, k.free, k.end, t') && t'.root == root
      invariant Extended(t.leaf, t'.leaf, lo, hi, fl)
      invariant |k.free| + all == |old(k.free)| + Needed(t', Range(hi, top))
      invariant SameView(old(k.mem), t, k.mem, t') && Conserved(old(k.mem), old(k.free), t, k.mem, k.free, t')
    {
      ghost var m1, f1, t1 := k.mem, k.free, t';
      assert hi !in t1.leaf by { ExtendedNot(t.leaf, t1.leaf, lo, hi, fl, hi); }
      var p;
      p, t' := MapFresh(k, root, a, fl, t1);
      RangeNeeded(t1, t', hi, top);
      ConservedTwice(old(k.mem), old(k.free), t, m1, f1, t1, k.mem, k.free, t');
      ViewTwice(old(k.mem), t, m1, t1, k.mem, t');
      if p == 0 {
        ghost var m2, f2, t2 := k.mem, k.free, t';
        var back;
        back, t' := UvmDealloc(k, root, a, lo * PGSIZE, t2);
        ConservedTwice(old(k.mem), old(k.free), t, m2, f2, t2, k.mem, k.free, t');
        ExtendedUndone(t.leaf, t2.leaf, lo, hi, fl);
        UndoneView(old(k.mem), t, m2, t2, k.mem, t', lo, hi);
        return 0, t';
      }
      ExtendedNext(t.leaf, t1.leaf, lo, hi, fl, p);
      a := a + PGSIZE;
      hi := hi + 1;
    }
    NoRange(t', top);
    r := newsz;
  }

  lemma RangeNeeded(t: Tree, t': Tree, v: int, hi: int)
    requires v < hi
    ensures 1 <= Needed(t, {v}) <= Needed(t, Range(v, hi))
    ensures Covers(t, t', v) ==> Needed(t, Range(v, hi)) == Needed(t, {v}) + Needed(t', Range(v + 1, hi))
  {
    InRange(v + 1, hi, v);
    NeededSplits(t, t', v, Range(v + 1, hi));
  }

  /** Growth by n pages takes at least n pages from the free list, and at most three times as many. */
  lemma GrowthCosts(t: Tree, lo: int, hi: int)
    requires lo <= hi
    ensures hi - lo <= Needed(t, Range(lo, hi)) <= 3 * (hi - lo)
  {
    RangeSize(lo, hi);
    CostBound(t.mid.Keys, t.low.Keys, Range(lo, hi));
  }

  lemma NoRange(t: Tree, hi: int)
    ensures Needed(t, Range(hi, hi)) == 0
  {
    NoneNeeded(t);
  }

  lemma ExtendedNone(leaf: map<int, Pte>, lo: int, fl: Flags)
    ensures Extended(leaf, leaf, lo, lo, fl)
  {
  }

  lemma ExtendedNot(leaf: map<int, Pte>, l1: map<int, Pte>, lo: int, hi: int, fl: Flags, w: int)
    requires Extended(leaf, l1, lo, hi, fl) && w !in leaf && w >= hi
    ensures w !in l1
  {
  }

  // ---------------------------------------------------------------- faults, growproc, sbrk

  /** vmfault: a page below the size that was never touched comes into being; nothing visible changes. */
  method VmFault(k: Kernel, root: int, psz: int, va: int, ghost t: Tree) returns (r: int, ghost t': Tree)
    requires SpaceOk(k.mem, k.free, k.end, t, psz) && root == t.root && 0 <= va
    modifies k
    ensures SpaceOk(k.mem, k.free, k.end, t', psz)
    ensures r != 0 ==> va < psz && va / PGSIZE !in t.leaf
    ensures t'.leaf == if r != 0 then t.leaf[va / PGSIZE := Pte(r, Flags(true, true, false, true))] else t.leaf
    ensures r == 0 ==> va >= psz || va / PGSIZE in t.leaf || OutOfMemory(k.free, t', va / PGSIZE)
    ensures r != 0 <==> va < psz && va / PGSIZE !in t.leaf && |old(k.free)| >= Needed(t, {va / PGSIZE})
    ensures SameView(old(k.mem), t, k.mem, t')
    ensures Conserved(old(k.mem), old(k.free), t, k.mem, k.free, t')
  {
    hide Valid, FramesOk, Conserved, SameView, Needed;
    NoChange(k.mem, k.free, k.end, t);
    t' := t;
    if va >= psz { return 0, t; }
    var page := va / PGSIZE * PGSIZE;
    var mapped := IsMapped(k, root, page, t);
    if mapped { return 0, t; }
    r, t' := MapFresh(k, root, page, Flags(true, true, false, true), t);
  }

  /** ismapped */
  method IsMapped(k: Kernel, root: int, va: int, ghost t: Tree) returns (r: bool)
    requires Valid(k.mem, k.free, k.end, t) && root == t.root && 0 <= va < MAXVA
    modifies k
    ensures k.mem == old(k.mem) && k.free == old(k.free)
    ensures r <==> va / PGSIZE in t.leaf
  {
    var tbl, _ := k.Walk(root, va, false, t);
    if tbl == 0 { return false; }
    assert LeafAt(k.mem, t, va / PGSIZE);
    return k.EntryAt(tbl, va).Pte?;
  }

  /** The size after growing by n: a result below zero wraps round, and then nothing shrinks. */
  function Resized(sz: int, n: int): int {
    if sz + n < 0 then sz else sz + n
  }

  lemma CutIsSame(m0: Mem, t0: Tree, m1: Mem, t1: Tree, v: int, n: int)
    requires n <= 0
    ensures SameView(m0, t0, m1, t1) <==> CutView(m0, t0, m1, t1, v, n)
  {
    if CutView(m0, t0, m1, t1, v, n) {
      forall w | 0 <= w < USERPAGES ensures PageOf(m1, t1.leaf, w) == PageOf(m0, t0.leaf, w) {}
    }
  }

  lemma ExtendedBelow(leaf: map<int, Pte>, l1: map<int, Pte>, lo: int, hi: int, fl: Flags)
    requires Extended(leaf, l1, lo, hi, fl) && Below(leaf, lo) && lo <= hi
    ensures Below(l1, hi)
  {
  }

  lemma ClearedBelow(leaf: map<int, Pte>, v: int, n: int)
    requires Below(leaf, v + n)
    ensures Below(Cleared(leaf, v, n), v)
  {
  }

  /** The kernel's pages at the top are as before. */
  ghost predicate SameUpper(leaf: map<int, Pte>, leaf': map<int, Pte>) {
    forall w :: w >= USERPAGES ==> (w in leaf' <==> w in leaf) && (w in leaf ==> w in leaf' && leaf'[w] == leaf[w])
  }

  lemma ExtendedUpper(leaf: map<int, Pte>, l1: map<int, Pte>, lo: int, hi: int, fl: Flags)
    requires Extended(leaf, l1, lo, hi, fl) && hi <= USERPAGES
    ensures SameUpper(leaf, l1)
  {
  }

  /** Growth by n stays below the trapframe, and a free list of this length pays for it. */
  ghost predicate GrowthFits(free: nat, t: Tree, sz: int, n: int) {
    n > 0 ==> sz + n <= TRAPFRAME && free >= Needed(t, Range(PageUp(sz), PageUp(sz + n)))
  }

  /** growproc: the space has the new size and shows the old bytes, or is as it was. */
  method GrowProc(k: Kernel, root: int, sz: int, n: int, ghost t: Tree) returns (r: int, sz': int, ghost t': Tree)
    requires SpaceOk(k.mem, k.free, k.end, t, sz) && root == t.root && -0x8000_0000 <= n < 0x8000_0000
    modifies k
    ensures SpaceOk(k.mem, k.free, k.end, t', sz')
    ensures r == 0 || r == -1
    ensures r == 0 ==> sz' == Resized(sz, n)
    ensures r == -1 ==> sz' == sz && t'.leaf == t.leaf && n > 0
    ensures r == 0 <==> GrowthFits(|old(k.free)|, t, sz, n)
    ensures r == 0 && n > 0 ==> Extended(t.leaf, t'.leaf, PageUp(sz), PageUp(sz'), Flags(true, true, false, true))
    ensures SameUpper(t.leaf, t'.leaf)
    ensures CutView(old(k.mem), t, k.mem, t', PageUp(sz'), PageUp(sz) - PageUp(sz'))
    ensures Conserved(old(k.mem), old(k.free), t, k.mem, k.free, t')
  {
    hide Valid, FramesOk, Conserved, SameView, CutView, Below, Extended, Needed, Range;
    NoChange(k.mem, k.free, k.end, t);
    CutIsSame(k.mem, t, k.mem, t, PageUp(sz), 0);
    sz', t' := sz, t;
    if n > 0 {
      if sz + n > TRAPFRAME { return -1, sz, t; }
      var s;
      s, t' := UvmAlloc(k, root, sz, sz + n, true, false, t);
      CutIsSame(old(k.mem), t, k.mem, t', PageUp(sz), 0);
      if s == 0 { return -1, sz, t'; }
      CutIsSame(old(k.mem), t, k.mem, t', PageUp(s), PageUp(sz) - PageUp(s));
      ExtendedBelow(t.leaf, t'.leaf, PageUp(sz), PageUp(s), Flags(true, true, false, true));
      ExtendedUpper(t.leaf, t'.leaf, PageUp(sz), PageUp(s), Flags(true, true, false, true));
      sz' := s;
    } else if n < 0 {
      var newsz := (sz + n) % 0x1_0000_0000_0000_0000;
      sz', t' := UvmDealloc(k, root, sz, newsz, t);
      if sz' == newsz { ClearedBelow(t.leaf, PageUp(newsz), PageUp(sz) - PageUp(newsz)); }
      else { KeptAll(old(k.mem), t, k.mem, t', PageUp(newsz), PageUp(sz)); }
    }
    r := 0;
  }

  lemma KeptAll(m0: Mem, t0: Tree, m1: Mem, t1: Tree, v: int, hi: int)
    requires CutView(m0, t0, m1, t1, v, hi - v) && hi <= v && t1.leaf == Cleared(t0.leaf, v, hi - v)
    ensures CutView(m0, t0, m1, t1, hi, 0) && t1.leaf == t0.leaf
  {
  }

  /** sys_sbrk: the old size or -1.  Eager and lazy growth look the same to the program. */
  method SysSbrk(k: Kernel, root: int, sz: int, n: int, eager: bool, ghost t: Tree)
      returns (addr: int, sz': int, ghost t': Tree)
    requires SpaceOk(k.mem, k.free, k.end, t, sz) && root == t.root && -0x8000_0000 <= n < 0x8000_0000
    modifies k
    ensures SpaceOk(k.mem, k.free, k.end, t', sz')
    ensures (addr == sz && sz' == Resized(sz, n)) || (addr == -1 && sz' == sz && n > 0 && t'.leaf == t.leaf)
    ensures sz + n > TRAPFRAME ==> addr == -1
    ensures !eager && sz + n <= TRAPFRAME ==> addr == sz
    ensures eager ==> (addr == sz <==> GrowthFits(|old(k.free)|, t, sz, n))
    ensures SameUpper(t.leaf, t'.leaf)
    ensures CutView(old(k.mem), t, k.mem, t', PageUp(sz'), PageUp(sz) - PageUp(sz'))
    ensures Conserved(old(k.mem), old(k.free), t, k.mem, k.free, t')
  {
    hide Valid, FramesOk, Conserved, SameView, CutView, Extended, GrowthFits;
    NoChange(k.mem, k.free, k.end, t);
    CutIsSame(k.mem, t, k.mem, t, PageUp(sz), 0);
    addr, sz', t' := sz, sz, t;
    if eager || n < 0 {
      var r;
      r, sz', t' := GrowProc(k, root, sz, n, t);
      if r < 0 { return -1, sz', t'; }
    } else {
      if addr + n < addr { return -1, sz, t; }
      if addr + n > TRAPFRAME { return -1, sz, t; }
      sz' := sz + n;
      CutIsSame(k.mem, t, k.mem, t, PageUp(sz'), PageUp(sz) - PageUp(sz'));
    }
  }
}
