/**
  uvmcopy (vm.c): the child of fork gets its own copy of every page of the parent.
 */
module Fork {
  import opened Sv39
  import opened Vm
  import opened PageCost
  import opened UserMem

  /**
    Isolation: whatever one address space does within its own pages and the free list,
    another one keeps its translations, its contents and its pages.
   */
  lemma Bystander(mem: Mem, free: seq<int>, end: int, t: Tree, mem': Mem, free': seq<int>, t': Tree,
      other: Tree, sz: int)
    requires Conserved(mem, free, t, mem', free', t') && FreeOk(mem', free', end)
    requires SpaceOk(mem, free, end, other, sz) && Owned(other) !! Owned(t)
    ensures SpaceOk(mem', free', end, other, sz) && SameView(mem, other, mem', other) && Owned(other) !! Owned(t')
  {
    Apart(mem, free, end, other);
    assert forall p :: p in Owned(other) ==> p !in Owned(t) + FreeSet(free);
    assert forall p :: p in free' ==> p in FreeSet(free');
    BystanderTable(mem, free, end, mem', free', other);
    BystanderFrames(mem, free, end, mem', free', other);
  }

  lemma Apart(mem: Mem, free: seq<int>, end: int, t: Tree)
    requires Valid(mem, free, end, t) && FramesOk(mem, free, end, t)
    ensures Owned(t) !! FreeSet(free)
  {
    forall p | p in Owned(t) ensures p !in free {
      if p !in TablePages(t) {
        var w :| w in t.leaf && 0 <= w < USERPAGES && t.leaf[w].Pte? && t.leaf[w].ppn == p;
        assert Leads(t.leaf, w, p);
      }
    }
  }

  lemma BystanderTable(mem: Mem, free: seq<int>, end: int, mem': Mem, free': seq<int>, other: Tree)
    requires Valid(mem, free, end, other) && FreeOk(mem', free', end) && mem'.Keys == mem.Keys
    requires forall p :: p in Owned(other) && p in mem ==> mem'[p] == mem[p]
    requires forall p :: p in Owned(other) ==> p !in free'
    ensures Valid(mem', free', end, other)
  {
    hide Wf;
    assert TablePages(other) <= Owned(other);
    WfOutside(mem, mem', other);
  }

  lemma BystanderFrames(mem: Mem, free: seq<int>, end: int, mem': Mem, free': seq<int>, other: Tree)
    requires FramesOk(mem, free, end, other) && mem'.Keys == mem.Keys
    requires forall p :: p in Owned(other) && p in mem ==> mem'[p] == mem[p]
    requires forall p :: p in Owned(other) ==> p !in free'
    ensures FramesOk(mem', free', end, other) && SameView(mem, other, mem', other)
  {
    forall w, q | 0 <= w < USERPAGES && Leads(other.leaf, w, q)
      ensures FrameOk(mem', free', end, other, q) && IsFrame(mem', q) && mem'[q] == mem[q]
    {
      assert q in Owned(other);
    }
    forall w | 0 <= w < USERPAGES ensures PageOf(mem', other.leaf, w) == PageOf(mem, other.leaf, w) {
      if w in other.leaf && other.leaf[w].Pte? { assert Leads(other.leaf, w, other.leaf[w].ppn); }
    }
  }

  /** Page w is the same in both spaces: absent from both, or in both with equal flags; it reads the same. */
  ghost predicate SamePage(mem: Mem, parent: Tree, child: Tree, w: int) {
    && (w in child.leaf <==> w in parent.leaf)
    && (w in child.leaf && child.leaf[w].Pte? && w in parent.leaf && parent.leaf[w].Pte? ==>
      child.leaf[w].flags == parent.leaf[w].flags)
    && PageOf(mem, child.leaf, w) == PageOf(mem, parent.leaf, w)
  }

  /** child is an empty space with the first n pages of parent copied into it. */
  ghost predicate CopyOf(mem: Mem, parent: Tree, empty: Tree, child: Tree, n: int) {
    && (forall w {:trigger SamePage(mem, parent, child, w)} :: 0 <= w < n ==> SamePage(mem, parent, child, w))
    && (forall w :: n <= w < USERPAGES ==> w !in child.leaf)
    && (forall w :: !(0 <= w < USERPAGES) ==> (w in child.leaf <==> w in empty.leaf))
    && (forall w :: !(0 <= w < USERPAGES) && w in empty.leaf ==> w in child.leaf && child.leaf[w] == empty.leaf[w])
  }

  lemma CopyNext(m0: Mem, parent: Tree, empty: Tree, c0: Tree, n: int, p: int, m1: Mem, c1: Tree)
    requires CopyOf(m0, parent, empty, c0, n) && 0 <= n < USERPAGES
    requires SameView(m0, parent, m1, parent) && n in parent.leaf && parent.leaf[n].Pte?
    requires c1.leaf == c0.leaf[n := Pte(p, parent.leaf[n].flags)]
    requires PutView(m0, c0, m1, c1, n, PageOf(m0, parent.leaf, n))
    ensures CopyOf(m1, parent, empty, c1, n + 1)
  {
    hide PageOf;
    forall w {:trigger SamePage(m1, parent, c1, w)} | 0 <= w < n + 1 ensures SamePage(m1, parent, c1, w) {
      if w < n { assert SamePage(m0, parent, c0, w); }
    }
  }

  lemma CopySkip(m0: Mem, parent: Tree, empty: Tree, child: Tree, n: int)
    requires CopyOf(m0, parent, empty, child, n) && 0 <= n < USERPAGES && n !in parent.leaf
    ensures CopyOf(m0, parent, empty, child, n + 1)
  {
    forall w {:trigger SamePage(m0, parent, child, w)} | 0 <= w < n + 1 ensures SamePage(m0, parent, child, w) {
      if w == n { assert n !in child.leaf; }
    }
  }

  lemma CopyStays(m0: Mem, parent: Tree, empty: Tree, c0: Tree, n: int, m1: Mem, c1: Tree)
    requires CopyOf(m0, parent, empty, c0, n) && n <= USERPAGES && c1.leaf == c0.leaf
    requires SameView(m0, parent, m1, parent) && SameView(m0, c0, m1, c1)
    ensures CopyOf(m1, parent, empty, c1, n)
  {
    hide PageOf;
    forall w {:trigger SamePage(m1, parent, c1, w)} | 0 <= w < n ensures SamePage(m1, parent, c1, w) {
      assert SamePage(m0, parent, c0, w);
    }
  }

  lemma CopyUndone(m0: Mem, parent: Tree, empty: Tree, child: Tree, n: int)
    requires CopyOf(m0, parent, empty, child, n) && 0 <= n <= USERPAGES
    requires forall w :: 0 <= w < USERPAGES ==> w !in empty.leaf
    ensures Cleared(child.leaf, 0, n) == empty.leaf
  {
    var l := Cleared(child.leaf, 0, n);
    forall w | w in l ensures w in empty.leaf && l[w] == empty.leaf[w] {
      assert !(n <= w < USERPAGES);
    }
    forall w | w in empty.leaf ensures w in l {}
  }

  /** A complete copy covers the whole space. */
  lemma CopyWhole(mem: Mem, parent: Tree, empty: Tree, child: Tree, n: int)
    requires CopyOf(mem, parent, empty, child, n) && 0 <= n <= USERPAGES && Below(parent.leaf, n)
    ensures Below(child.leaf, n)
    ensures forall w :: 0 <= w < USERPAGES ==> SamePage(mem, parent, child, w)
  {
    forall w | 0 <= w < USERPAGES ensures SamePage(mem, parent, child, w) {
      if w >= n { assert w !in child.leaf && w !in parent.leaf; }
    }
  }

  /** The user pages of a space from page n on. */
  ghost function PagesFrom(leaf: map<int, Pte>, n: int): set<int> {
    set w | w in leaf && n <= w < USERPAGES
  }

  lemma PageAbsent(leaf: map<int, Pte>, n: int)
    requires n !in leaf
    ensures PagesFrom(leaf, n + 1) == PagesFrom(leaf, n)
  {
  }

  lemma PagePresent(leaf: map<int, Pte>, n: int, t: Tree, t': Tree)
    requires n in leaf && n < USERPAGES
    ensures Needed(t, {n}) <= Needed(t, PagesFrom(leaf, n))
    ensures Covers(t, t', n) ==>
      Needed(t, PagesFrom(leaf, n)) == Needed(t, {n}) + Needed(t', PagesFrom(leaf, n + 1))
  {
    hide Needed, Covers;
    assert PagesFrom(leaf, n) == {n} + PagesFrom(leaf, n + 1);
    NeededSplits(t, t', n, PagesFrom(leaf, n + 1));
  }

  lemma NoPagesLeft(leaf: map<int, Pte>, n: int, t: Tree)
    requires Below(leaf, n)
    ensures Needed(t, PagesFrom(leaf, n)) == 0
  {
    assert PagesFrom(leaf, n) == {};
    NoneNeeded(t);
  }

  /** The parent's PTE of page w, as uvmcopy reads it. */
  method LookUp(k: Kernel, root: int, va: int, ghost t: Tree) returns (pte: Pte)
    requires Valid(k.mem, k.free, k.end, t) && root == t.root && 0 <= va < MAXVA
    modifies k
    ensures k.mem == old(k.mem) && k.free == old(k.free)
    ensures pte == if va / PGSIZE in t.leaf then t.leaf[va / PGSIZE] else Zero
  {
    var tbl, _ := k.Walk(root, va, false, t);
    if tbl == 0 { return Zero; }
    assert LeafAt(k.mem, t, va / PGSIZE);
    return k.EntryAt(tbl, va);
  }

  /** A user page of the parent is a page frame. */
  lemma ParentFrame(mem: Mem, free: seq<int>, end: int, t: Tree, w: int)
    requires FramesOk(mem, free, end, t) && 0 <= w < USERPAGES && w in t.leaf && t.leaf[w].Pte?
    ensures IsFrame(mem, t.leaf[w].ppn) && PageOf(mem, t.leaf, w) == mem[t.leaf[w].ppn].bytes
  {
    assert Leads(t.leaf, w, t.leaf[w].ppn);
  }

  /**
    uvmcopy: the child has its own copy of the parent's space, page for page, flags
    included; or it is empty again.  The parent does not change, and no page is shared.
   */
  method UvmCopy(k: Kernel, oldRoot: int, newRoot: int, sz: int, ghost parent: Tree, ghost empty: Tree)
      returns (r: int, ghost child: Tree)
    requires SpaceOk(k.mem, k.free, k.end, parent, sz) && oldRoot == parent.root
    requires SpaceOk(k.mem, k.free, k.end, empty, 0) && newRoot == empty.root && Owned(parent) !! Owned(empty)
    modifies k
    ensures SpaceOk(k.mem, k.free, k.end, parent, sz) && SameView(old(k.mem), parent, k.mem, parent)
    ensures Conserved(old(k.mem), old(k.free), empty, k.mem, k.free, child) && Owned(parent) !! Owned(child)
    ensures r == 0 || r == -1
    ensures r == 0 ==> SpaceOk(k.mem, k.free, k.end, child, sz) && CopyOf(k.mem, parent, empty, child, PageUp(sz))
    ensures r == -1 ==> SpaceOk(k.mem, k.free, k.end, child, 0) && child.leaf == empty.leaf
    ensures r == 0 <==> |old(k.free)| >= Needed(empty, PagesFrom(parent.leaf, 0))
  {
    hide Valid, FramesOk, Conserved, SameView, CopyOf, PutView, Owned, Needed, PagesFrom;
    ghost var all := Needed(empty, PagesFrom(parent.leaf, 0));
    NoChange(k.mem, k.free, k.end, parent);
    NoChange(k.mem, k.free, k.end, empty);
    CopyNone(k.mem, parent, empty);
    child := empty;
    var i := 0;
    ghost var n := 0;
    while i < sz
      invariant 0 <= n <= PageUp(sz) && i == 4096 * n
      invariant SpaceOk(k.mem, k.free, k.end, parent, sz) && SameView(old(k.mem), parent, k.mem, parent)
      invariant Valid(k.mem, k.free, k.end, child) && FramesOk(k.mem, k.free, k.end, child) && child.root == newRoot
      invariant Conserved(old(k.mem), old(k.free), empty, k.mem, k.free, child) && Owned(parent) !! Owned(child)
      invariant CopyOf(k.mem, parent, empty, child, n)
      invariant |k.free| + all == |old(k.free)| + Needed(child, PagesFrom(parent.leaf, n))
    {
      var pte := LookUp(k, oldRoot, i, parent);
      LeavesArePtes(k.mem, k.free, k.end, parent);
      if pte.Zero? {
        CopySkip(k.mem, parent, empty, child, n);
        PageAbsent(parent.leaf, n);
      } else {
        ParentFrame(k.mem, k.free, k.end, parent, n);
        CopyAbsent(k.mem, parent, empty, child, n);
        ghost var m1, f1, c1 := k.mem, k.free, child;
        var p;
        p, child := MapFilled(k, newRoot, i, k.mem[pte.ppn].bytes, pte.flags, c1);
        PagePresent(parent.leaf, n, c1, child);
        ConservedTwice(old(k.mem), old(k.free), empty, m1, f1, c1, k.mem, k.free, child);
        NoChange(k.mem, k.free, k.end, child);
        Bystander(m1, f1, k.end, c1, k.mem, k.free, child, parent, sz);
        ViewTwice(old(k.mem), parent, m1, parent, k.mem, parent);
        if p == 0 {
          CopyStays(m1, parent, empty, c1, n, k.mem, child);
          ghost var m2, f2, c2 := k.mem, k.free, child;
          OwnPart(k.mem, k.free, k.end, c2, 0, n);
          child := k.UvmUnmap(newRoot, 0, i / PGSIZE, true, c2);
          CutFrames(m2, f2, k.end, c2, k.mem, k.free, child, 0, n);
          CutConserves(m2, f2, c2, k.mem, k.free, child, 0, n);
          ConservedTwice(old(k.mem), old(k.free), empty, m2, f2, c2, k.mem, k.free, child);
          NoChange(k.mem, k.free, k.end, child);
          Bystander(m2, f2, k.end, c2, k.mem, k.free, child, parent, sz);
          ViewTwice(old(k.mem), parent, m2, parent, k.mem, parent);
          CopyUndone(m2, parent, empty, c2, n);
          return -1, child;
        }
        CopyNext(m1, parent, empty, c1, n, p, k.mem, child);
      }
      i := i + PGSIZE;
      n := n + 1;
    }
    CopyWhole(k.mem, parent, empty, child, PageUp(sz));
    NoPagesLeft(parent.leaf, n, child);
    r := 0;
  }

  lemma CopyNone(mem: Mem, parent: Tree, empty: Tree)
    requires Below(empty.leaf, 0)
    ensures CopyOf(mem, parent, empty, empty, 0)
  {
  }

  lemma CopyAbsent(mem: Mem, parent: Tree, empty: Tree, child: Tree, n: int)
    requires CopyOf(mem, parent, empty, child, n) && 0 <= n < USERPAGES
    ensures n !in child.leaf
  {
  }
}
