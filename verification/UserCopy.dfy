/**
  copyout and copyin (vm.c): moving bytes between the kernel and a user address
  space, page by page.
 */
module UserCopy {
  import opened Sv39
  import opened Vm
  import opened UserMem

  /** The byte at user address a. */
  ghost function ByteAt(mem: Mem, leaf: map<int, Pte>, a: int): int {
    var page := PageOf(mem, leaf, a / 4096);
    if a % 4096 < |page| then page[a % 4096] else 0
  }

  /** The user may read, or write, page w: it has it, or would be given it on first touch. */
  ghost predicate Reach(leaf: map<int, Pte>, psz: int, w: int, write: bool) {
    if w in leaf then leaf[w].Pte? && leaf[w].flags.u && (write ==> leaf[w].flags.w) else w < PageUp(psz)
  }

  ghost predicate SameReach(leaf: map<int, Pte>, leaf': map<int, Pte>, psz: int, write: bool) {
    forall w :: 0 <= w ==> (Reach(leaf', psz, w, write) <==> Reach(leaf, psz, w, write))
  }

  /** Memory reads as before, except for data at address va. */
  ghost predicate Overwritten(mem: Mem, leaf: map<int, Pte>, mem': Mem, leaf': map<int, Pte>, va: int, data: seq<int>) {
    forall a :: 0 <= a < TRAPFRAME ==>
      ByteAt(mem', leaf', a) == if va <= a < va + |data| then data[a - va] else ByteAt(mem, leaf, a)
  }

  function Patched(bytes: seq<int>, off: int, data: seq<int>): seq<int>
    requires 0 <= off && off + |data| <= |bytes|
  {
    bytes[..off] + data + bytes[off + |data|..]
  }

  lemma PatchedSpace(mem: Mem, free: seq<int>, end: int, t: Tree, psz: int, w: int, page: Page)
    requires SpaceOk(mem, free, end, t, psz) && 0 <= w < USERPAGES && w in t.leaf && t.leaf[w].Pte?
    requires page.Frame? && |page.bytes| == PGSIZE
    ensures var mem' := mem[t.leaf[w].ppn := page];
      SpaceOk(mem', free, end, t, psz) && Conserved(mem, free, t, mem', free, t)
  {
    var p := t.leaf[w].ppn;
    var mem' := mem[p := page];
    assert Leads(t.leaf, w, p);
    WfOutside(mem, mem', t);
    assert p in Ppns(t.leaf, 0, USERPAGES);
    assert FramesOk(mem', free, end, t);
  }

  lemma PatchedView(mem: Mem, free: seq<int>, end: int, t: Tree, w: int, off: int, data: seq<int>)
    requires FramesOk(mem, free, end, t) && 0 <= w < USERPAGES && w in t.leaf && t.leaf[w].Pte?
    requires t.leaf[w].ppn in mem && mem[t.leaf[w].ppn].Frame? && |mem[t.leaf[w].ppn].bytes| == PGSIZE
    requires 0 <= off && off + |data| <= PGSIZE
    ensures var p := t.leaf[w].ppn;
      Overwritten(mem, t.leaf, mem[p := Frame(Patched(mem[p].bytes, off, data))], t.leaf, w * PGSIZE + off, data)
  {
    var p := t.leaf[w].ppn;
    var mem' := mem[p := Frame(Patched(mem[p].bytes, off, data))];
    assert Leads(t.leaf, w, p);
    forall a | 0 <= a < TRAPFRAME
      ensures var va := w * PGSIZE + off;
        ByteAt(mem', t.leaf, a) == if va <= a < va + |data| then data[a - va] else ByteAt(mem, t.leaf, a)
    {
      var u := a / 4096;
      if u != w {
        if u in t.leaf && t.leaf[u].Pte? { assert Leads(t.leaf, u, t.leaf[u].ppn); }
        assert PageOf(mem', t.leaf, u) == PageOf(mem, t.leaf, u);
      }
    }
  }

  lemma OverwrittenTwice(m0: Mem, l0: map<int, Pte>, m1: Mem, l1: map<int, Pte>, m2: Mem, l2: map<int, Pte>,
      va: int, d1: seq<int>, d2: seq<int>)
    requires Overwritten(m0, l0, m1, l1, va, d1) && Overwritten(m1, l1, m2, l2, va + |d1|, d2)
    ensures Overwritten(m0, l0, m2, l2, va, d1 + d2)
  {
  }

  lemma ViewIsBytes(m0: Mem, t0: Tree, m1: Mem, t1: Tree, va: int)
    requires SameView(m0, t0, m1, t1)
    ensures Overwritten(m0, t0.leaf, m1, t1.leaf, va, [])
  {
  }

  lemma FaultReach(leaf: map<int, Pte>, w: int, p: int, psz: int, write: bool)
    requires w !in leaf && 0 <= w < PageUp(psz)
    ensures SameReach(leaf, leaf[w := Pte(p, Flags(true, true, false, true))], psz, write)
  {
  }

  /**
    The first half of a round of copyout or copyin: the page of a user address, faulted in
    if need be, or 0 if the user may not touch it or memory is exhausted.
   */
  method TouchPage(k: Kernel, root: int, psz: int, va0: int, ghost t: Tree) returns (pa: int, ghost t': Tree)
    requires SpaceOk(k.mem, k.free, k.end, t, psz) && root == t.root && 0 <= va0 && va0 % PGSIZE == 0
    modifies k
    ensures SpaceOk(k.mem, k.free, k.end, t', psz)
    ensures SameView(old(k.mem), t, k.mem, t') && Conserved(old(k.mem), old(k.free), t, k.mem, k.free, t')
    ensures SameReach(t.leaf, t'.leaf, psz, true) && SameReach(t.leaf, t'.leaf, psz, false)
    ensures SameUpper(t.leaf, t'.leaf)
    ensures pa == 0 ==> !Reach(t.leaf, psz, va0 / PGSIZE, false) || OutOfMemory(k.free, t', va0 / PGSIZE)
    ensures pa != 0 ==> va0 / PGSIZE < USERPAGES && va0 / PGSIZE in t'.leaf && t'.leaf[va0 / PGSIZE].Pte?
    ensures pa != 0 ==> t'.leaf[va0 / PGSIZE].ppn == pa && IsFrame(k.mem, pa) && Reach(t.leaf, psz, va0 / PGSIZE, false)
  {
    hide Valid, FramesOk, Conserved, SameView, OutOfMemory, Needed;
    ghost var w := va0 / PGSIZE;
    NoChange(k.mem, k.free, k.end, t);
    LeavesArePtes(k.mem, k.free, k.end, t);
    t' := t;
    pa := k.WalkAddr(root, va0, t);
    if pa == 0 {
      if w in t.leaf && t.leaf[w].flags.u { UserFrame(k.mem, k.free, k.end, t, w); }
      pa, t' := VmFault(k, root, psz, va0, t);
      if pa != 0 {
        LowPage(k.mem, k.free, k.end, t', psz, w);
        FaultReach(t.leaf, w, pa, psz, true);
        FaultReach(t.leaf, w, pa, psz, false);
      }
    }
    if pa != 0 { UserFrame(k.mem, k.free, k.end, t', w); }
  }

  lemma LowPage(mem: Mem, free: seq<int>, end: int, t: Tree, psz: int, w: int)
    requires SpaceOk(mem, free, end, t, psz) && w < PageUp(psz)
    ensures w < USERPAGES
  {
    hide Valid, FramesOk;
  }

  /** A page with the user bit is a page frame below TRAPFRAME. */
  lemma UserFrame(mem: Mem, free: seq<int>, end: int, t: Tree, w: int)
    requires Valid(mem, free, end, t) && FramesOk(mem, free, end, t)
    requires w in t.leaf && t.leaf[w].Pte? && t.leaf[w].flags.u
    ensures 0 <= w < USERPAGES && IsFrame(mem, t.leaf[w].ppn) && t.leaf[w].ppn != 0
  {
    assert Leads(t.leaf, w, t.leaf[w].ppn);
  }

  lemma FarPage(mem: Mem, free: seq<int>, end: int, t: Tree, psz: int, va: int, write: bool)
    requires SpaceOk(mem, free, end, t, psz) && va >= MAXVA
    ensures !Reach(t.leaf, psz, va / 4096, write)
  {
  }

  /** copyout's check of the write bit. */
  method Writable(k: Kernel, root: int, va0: int, ghost t: Tree) returns (ok: bool)
    requires Valid(k.mem, k.free, k.end, t) && root == t.root && 0 <= va0 < MAXVA && va0 / PGSIZE in t.leaf
    modifies k
    ensures k.mem == old(k.mem) && k.free == old(k.free)
    ensures t.leaf[va0 / PGSIZE].Pte? && ok == t.leaf[va0 / PGSIZE].flags.w
  {
    var tbl, _ := k.Walk(root, va0, false, t);
    assert LeafAt(k.mem, t, va0 / PGSIZE);
    ok := k.EntryAt(tbl, va0).flags.w;
  }

  /** memmove into a user page. */
  method Poke(k: Kernel, p: int, off: int, data: seq<int>, ghost w: int, ghost t: Tree, ghost psz: int)
    requires SpaceOk(k.mem, k.free, k.end, t, psz) && 0 <= w < USERPAGES && w in t.leaf && t.leaf[w].Pte?
    requires p == t.leaf[w].ppn && IsFrame(k.mem, p) && 0 <= off && off + |data| <= PGSIZE
    modifies k
    ensures SpaceOk(k.mem, k.free, k.end, t, psz) && Conserved(old(k.mem), old(k.free), t, k.mem, k.free, t)
    ensures k.free == old(k.free) && Overwritten(old(k.mem), t.leaf, k.mem, t.leaf, w * PGSIZE + off, data)
  {
    PatchedSpace(k.mem, k.free, k.end, t, psz, w, Frame(Patched(k.mem[p].bytes, off, data)));
    PatchedView(k.mem, k.free, k.end, t, w, off, data);
    hide SpaceOk, Conserved, Overwritten;
    k.mem := k.mem[p := Frame(Patched(k.mem[p].bytes, off, data))];
  }

  lemma ReachTwice(l0: map<int, Pte>, l1: map<int, Pte>, l2: map<int, Pte>, psz: int, write: bool)
    requires SameReach(l0, l1, psz, write) && SameReach(l1, l2, psz, write)
    ensures SameReach(l0, l2, psz, write)
  {
  }

  /** What copyout has done after n bytes. */
  ghost predicate Copied(mem: Mem, free: seq<int>, t: Tree, psz: int, va: int, data: seq<int>, mem': Mem,
      free': seq<int>, t': Tree) {
    && Conserved(mem, free, t, mem', free', t') && Overwritten(mem, t.leaf, mem', t'.leaf, va, data)
    && SameReach(t.leaf, t'.leaf, psz, true) && SameReach(t.leaf, t'.leaf, psz, false) && SameUpper(t.leaf, t'.leaf)
    && (forall a {:trigger a / 4096} :: va <= a < va + |data| ==> Reach(t.leaf, psz, a / 4096, true))
  }

  lemma CopiedNone(mem: Mem, free: seq<int>, t: Tree, psz: int, va: int)
    ensures Copied(mem, free, t, psz, va, [], mem, free, t)
  {
  }

  lemma CopiedTouched(m0: Mem, f0: seq<int>, t0: Tree, psz: int, va: int, data: seq<int>,
      m1: Mem, f1: seq<int>, t1: Tree, m2: Mem, f2: seq<int>, t2: Tree)
    requires Copied(m0, f0, t0, psz, va, data, m1, f1, t1)
    requires SameView(m1, t1, m2, t2) && Conserved(m1, f1, t1, m2, f2, t2)
    requires SameReach(t1.leaf, t2.leaf, psz, true) && SameReach(t1.leaf, t2.leaf, psz, false)
    requires SameUpper(t1.leaf, t2.leaf)
    ensures Copied(m0, f0, t0, psz, va, data, m2, f2, t2)
  {
    hide Conserved, SameView, Overwritten, SameReach;
    ConservedTwice(m0, f0, t0, m1, f1, t1, m2, f2, t2);
    ViewIsBytes(m1, t1, m2, t2, va + |data|);
    OverwrittenTwice(m0, t0.leaf, m1, t1.leaf, m2, t2.leaf, va, data, []);
    assert data + [] == data;
    ReachTwice(t0.leaf, t1.leaf, t2.leaf, psz, true);
    ReachTwice(t0.leaf, t1.leaf, t2.leaf, psz, false);
  }

  lemma CopiedMore(m0: Mem, f0: seq<int>, t0: Tree, psz: int, va: int, data: seq<int>,
      m1: Mem, f1: seq<int>, t1: Tree, more: seq<int>, m2: Mem, f2: seq<int>)
    requires Copied(m0, f0, t0, psz, va, data, m1, f1, t1) && 0 <= va
    requires Conserved(m1, f1, t1, m2, f2, t1) && Overwritten(m1, t1.leaf, m2, t1.leaf, va + |data|, more)
    requires Reach(t1.leaf, psz, (va + |data|) / 4096, true) && (va + |data|) % 4096 + |more| <= 4096
    ensures Copied(m0, f0, t0, psz, va, data + more, m2, f2, t1)
  {
    hide Conserved, Overwritten, Reach;
    ConservedTwice(m0, f0, t0, m1, f1, t1, m2, f2, t1);
    OverwrittenTwice(m0, t0.leaf, m1, t1.leaf, m2, t1.leaf, va, data, more);
    forall a {:trigger a / 4096} | va <= a < va + |data + more| ensures Reach(t0.leaf, psz, a / 4096, true) {
      if a >= va + |data| { assert a / 4096 == (va + |data|) / 4096; }
    }
  }

  /**
    copyout: all of src is at dstva and nothing else changed; or the copy stopped after n
    bytes, at a page the user may not write or for want of memory.
   */
  method CopyOut(k: Kernel, root: int, psz: int, dstva: int, src: seq<int>, ghost t: Tree)
      returns (r: int, ghost t': Tree, ghost n: nat)
    requires SpaceOk(k.mem, k.free, k.end, t, psz) && root == t.root && 0 <= dstva
    modifies k
    ensures SpaceOk(k.mem, k.free, k.end, t', psz)
    ensures n <= |src| && Copied(old(k.mem), old(k.free), t, psz, dstva, src[..n], k.mem, k.free, t')
    ensures (r == 0 && n == |src|) || (r == -1 && n < |src|)
    ensures r == -1 ==> !Reach(t.leaf, psz, (dstva + n) / 4096, true) || OutOfMemory(k.free, t', (dstva + n) / 4096)
  {
    hide Valid, FramesOk, Conserved, SameView, Overwritten, SameReach, Copied, SameUpper, OutOfMemory;
    CopiedNone(k.mem, k.free, t, psz, dstva);
    var i, va := 0, dstva;
    t', n := t, 0;
    assert src[..0] == [];
    while i < |src|
      invariant 0 <= i <= |src| && n == i && va == dstva + i && t'.root == root
      invariant SpaceOk(k.mem, k.free, k.end, t', psz)
      invariant Copied(old(k.mem), old(k.free), t, psz, dstva, src[..i], k.mem, k.free, t')
      decreases |src| - i
    {
      var va0 := va / PGSIZE * PGSIZE;
      if va0 >= MAXVA {
        FarPage(k.mem, k.free, k.end, t', psz, va, true);
        CopiedReach(old(k.mem), old(k.free), t, psz, dstva, src[..i], k.mem, k.free, t', va / 4096);
        return -1, t', n;
      }
      ghost var m1, f1, t1 := k.mem, k.free, t';
      var pa;
      pa, t' := TouchPage(k, root, psz, va0, t');
      CopiedReach(old(k.mem), old(k.free), t, psz, dstva, src[..i], m1, f1, t1, va / 4096);
      CopiedTouched(old(k.mem), old(k.free), t, psz, dstva, src[..i], m1, f1, t1, k.mem, k.free, t');
      if pa == 0 { return -1, t', n; }
      CopiedReach(old(k.mem), old(k.free), t, psz, dstva, src[..i], k.mem, k.free, t', va / 4096);
      var ok := Writable(k, root, va0, t');
      if !ok { return -1, t', n; }
      var len := PGSIZE - (va - va0);
      if len > |src| - i { len := |src| - i; }
      m1, f1 := k.mem, k.free;
      Poke(k, pa, va - va0, src[i..i + len], va / PGSIZE, t', psz);
      CopiedMore(old(k.mem), old(k.free), t, psz, dstva, src[..i], m1, f1, t', src[i..i + len], k.mem, k.free);
      assert src[..i] + src[i..i + len] == src[..i + len];
      i := i + len;
      n := i;
      va := va + len;
    }
    r := 0;
  }

  lemma CopiedReach(m0: Mem, f0: seq<int>, t0: Tree, psz: int, va: int, data: seq<int>, m1: Mem, f1: seq<int>,
      t1: Tree, w: int)
    requires Copied(m0, f0, t0, psz, va, data, m1, f1, t1) && 0 <= w
    ensures Reach(t1.leaf, psz, w, true) <==> Reach(t0.leaf, psz, w, true)
    ensures Reach(t1.leaf, psz, w, false) <==> Reach(t0.leaf, psz, w, false)
    ensures t1.root == t0.root
  {
  }

  /** data is what the user sees from va on. */
  ghost predicate Shows(mem: Mem, leaf: map<int, Pte>, va: int, data: seq<int>) {
    forall i {:trigger data[i]} :: 0 <= i < |data| ==> data[i] == ByteAt(mem, leaf, va + i)
  }

  ghost predicate Touched(mem: Mem, free: seq<int>, t: Tree, psz: int, mem': Mem, free': seq<int>, t': Tree) {
    && SameView(mem, t, mem', t') && Conserved(mem, free, t, mem', free', t') && SameReach(t.leaf, t'.leaf, psz, false)
  }

  lemma TouchedTwice(m0: Mem, f0: seq<int>, t0: Tree, psz: int, m1: Mem, f1: seq<int>, t1: Tree, m2: Mem,
      f2: seq<int>, t2: Tree)
    requires Touched(m0, f0, t0, psz, m1, f1, t1) && Touched(m1, f1, t1, psz, m2, f2, t2)
    ensures Touched(m0, f0, t0, psz, m2, f2, t2)
  {
    hide SameView, Conserved, SameReach;
    ViewTwice(m0, t0, m1, t1, m2, t2);
    ConservedTwice(m0, f0, t0, m1, f1, t1, m2, f2, t2);
    ReachTwice(t0.leaf, t1.leaf, t2.leaf, psz, false);
  }

  lemma TouchedReach(m0: Mem, f0: seq<int>, t0: Tree, psz: int, m1: Mem, f1: seq<int>, t1: Tree, w: int)
    requires Touched(m0, f0, t0, psz, m1, f1, t1) && 0 <= w
    ensures Reach(t1.leaf, psz, w, false) <==> Reach(t0.leaf, psz, w, false)
    ensures t1.root == t0.root
  {
  }

  lemma ShowsMore(m0: Mem, t0: Tree, m1: Mem, t1: Tree, va: int, data: seq<int>, w: int, off: int, len: int)
    requires SameView(m0, t0, m1, t1) && Shows(m0, t0.leaf, va, data) && va + |data| == w * 4096 + off
    requires 0 <= w < USERPAGES && w in t1.leaf && t1.leaf[w].Pte? && IsFrame(m1, t1.leaf[w].ppn)
    requires 0 <= off < 4096 && 0 <= len && off + len <= 4096
    ensures Shows(m0, t0.leaf, va, data + m1[t1.leaf[w].ppn].bytes[off..off + len])
  {
    var more := m1[t1.leaf[w].ppn].bytes[off..off + len];
    assert PageOf(m0, t0.leaf, w) == m1[t1.leaf[w].ppn].bytes;
    forall i {:trigger (data + more)[i]} | 0 <= i < |data + more|
      ensures (data + more)[i] == ByteAt(m0, t0.leaf, va + i)
    {
      if i < |data| {
        assert data[i] == ByteAt(m0, t0.leaf, va + i);
      } else {
        var a := va + i;
        assert a == w * 4096 + off + (i - |data|);
        assert a / 4096 == w && a % 4096 == off + (i - |data|);
      }
    }
  }

  /** copyin: the bytes the user sees, of a range all of which the user may read. */
  method CopyIn(k: Kernel, root: int, psz: int, srcva: int, len: nat, ghost t: Tree)
      returns (r: int, data: seq<int>, ghost t': Tree)
    requires SpaceOk(k.mem, k.free, k.end, t, psz) && root == t.root && 0 <= srcva
    modifies k
    ensures SpaceOk(k.mem, k.free, k.end, t', psz) && Touched(old(k.mem), old(k.free), t, psz, k.mem, k.free, t')
    ensures Shows(old(k.mem), t.leaf, srcva, data)
    ensures (r == 0 && |data| == len) || (r == -1 && |data| < len)
    ensures var w := (srcva + |data|) / 4096; r == -1 ==> !Reach(t.leaf, psz, w, false) || OutOfMemory(k.free, t', w)
  {
    hide Valid, FramesOk, Conserved, SameView, SameReach, OutOfMemory;
    NoChange(k.mem, k.free, k.end, t);
    ReachNone(t.leaf, psz);
    var va := srcva;
    t', data := t, [];
    while |data| < len
      invariant |data| <= len && va == srcva + |data| && t'.root == root
      invariant SpaceOk(k.mem, k.free, k.end, t', psz) && Touched(old(k.mem), old(k.free), t, psz, k.mem, k.free, t')
      invariant Shows(old(k.mem), t.leaf, srcva, data)
      decreases len - |data|
    {
      var va0 := va / PGSIZE * PGSIZE;
      ghost var m1, f1, t1 := k.mem, k.free, t';
      var pa;
      pa, t' := TouchPage(k, root, psz, va0, t1);
      TouchedReach(old(k.mem), old(k.free), t, psz, m1, f1, t1, va / 4096);
      TouchedTwice(old(k.mem), old(k.free), t, psz, m1, f1, t1, k.mem, k.free, t');
      if pa == 0 { return -1, data, t'; }
      TouchedReach(old(k.mem), old(k.free), t, psz, k.mem, k.free, t', va / 4096);
      var n := PGSIZE - (va - va0);
      if n > len - |data| { n := len - |data|; }
      ShowsMore(old(k.mem), t, k.mem, t', srcva, data, va / 4096, va - va0, n);
      data := data + k.mem[pa].bytes[va - va0..va - va0 + n];
      va := va + n;
    }
    r := 0;
  }

  lemma ReachNone(leaf: map<int, Pte>, psz: int)
    ensures SameReach(leaf, leaf, psz, false)
  {
  }

  /** What copyout put there, copyin finds. */
  lemma CopyRoundTrip(m0: Mem, f0: seq<int>, t0: Tree, psz: int, va: int, data: seq<int>, m1: Mem,
      f1: seq<int>, t1: Tree, back: seq<int>)
    requires Copied(m0, f0, t0, psz, va, data, m1, f1, t1) && Shows(m1, t1.leaf, va, back) && |back| == |data|
    requires 0 <= va && va + |data| <= TRAPFRAME
    ensures back == data
  {
    forall i | 0 <= i < |data| ensures back[i] == data[i] {
      assert back[i] == ByteAt(m1, t1.leaf, va + i);
    }
  }

  lemma ShowsOne(m0: Mem, t0: Tree, m1: Mem, t1: Tree, va: int, data: seq<int>, w: int, off: int)
    requires SameView(m0, t0, m1, t1) && Shows(m0, t0.leaf, va, data) && va + |data| == w * 4096 + off
    requires 0 <= w < USERPAGES && w in t1.leaf && t1.leaf[w].Pte? && IsFrame(m1, t1.leaf[w].ppn) && 0 <= off < 4096
    ensures Shows(m0, t0.leaf, va, data + [m1[t1.leaf[w].ppn].bytes[off]])
    ensures ByteAt(m0, t0.leaf, va + |data|) == m1[t1.leaf[w].ppn].bytes[off]
  {
    ShowsMore(m0, t0, m1, t1, va, data, w, off, 1);
    assert m1[t1.leaf[w].ppn].bytes[off..off + 1] == [m1[t1.leaf[w].ppn].bytes[off]];
    var all := data + [m1[t1.leaf[w].ppn].bytes[off]];
    assert all[|data|] == ByteAt(m0, t0.leaf, va + |data|);
  }

  ghost predicate NoNul(data: seq<int>) {
    forall i :: 0 <= i < |data| ==> data[i] != 0
  }

  /**
    copyinstr: the string the user sees at srcva, without its NUL, if one comes within max
    bytes; otherwise -1, after max bytes or at a byte the user may not read.
   */
  method CopyInStr(k: Kernel, root: int, psz: int, srcva: int, max: nat, ghost t: Tree)
      returns (r: int, data: seq<int>, ghost t': Tree)
    requires SpaceOk(k.mem, k.free, k.end, t, psz) && root == t.root && 0 <= srcva
    modifies k
    ensures SpaceOk(k.mem, k.free, k.end, t', psz) && Touched(old(k.mem), old(k.free), t, psz, k.mem, k.free, t')
    ensures Shows(old(k.mem), t.leaf, srcva, data) && NoNul(data) && |data| <= max && (r == 0 || r == -1)
    ensures r == 0 ==> |data| < max && ByteAt(old(k.mem), t.leaf, srcva + |data|) == 0
    ensures var w := (srcva + |data|) / 4096;
      r == -1 && |data| < max ==> !Reach(t.leaf, psz, w, false) || OutOfMemory(k.free, t', w)
  {
    hide Valid, FramesOk, Conserved, SameView, SameReach, ByteAt, OutOfMemory;
    NoChange(k.mem, k.free, k.end, t);
    ReachNone(t.leaf, psz);
    var va := srcva;
    t', data := t, [];
    while |data| < max
      invariant |data| <= max && va == srcva + |data| && t'.root == root && NoNul(data)
      invariant SpaceOk(k.mem, k.free, k.end, t', psz) && Touched(old(k.mem), old(k.free), t, psz, k.mem, k.free, t')
      invariant Shows(old(k.mem), t.leaf, srcva, data)
      decreases max - |data|
    {
      var va0 := va / PGSIZE * PGSIZE;
      ghost var m1, f1, t1 := k.mem, k.free, t';
      var pa;
      pa, t' := TouchPage(k, root, psz, va0, t1);
      TouchedReach(old(k.mem), old(k.free), t, psz, m1, f1, t1, va / 4096);
      TouchedTwice(old(k.mem), old(k.free), t, psz, m1, f1, t1, k.mem, k.free, t');
      if pa == 0 { return -1, data, t'; }
      TouchedReach(old(k.mem), old(k.free), t, psz, k.mem, k.free, t', va / 4096);
      var n := PGSIZE - (va - va0);
      if n > max - |data| { n := max - |data|; }
      var found;
      found, data := ScanPage(k, pa, va - va0, n, data, old(k.mem), t, t', srcva, va / 4096);
      if found { return 0, data, t'; }
      va := srcva + |data|;
    }
    r := -1;
  }

  /** The inner loop of copyinstr: up to n bytes of one page. */
  method ScanPage(k: Kernel, pa: int, off: int, n: int, start: seq<int>,
      ghost m0: Mem, ghost t0: Tree, ghost t: Tree, ghost va: int, ghost w: int)
      returns (found: bool, data: seq<int>)
    requires SameView(m0, t0, k.mem, t) && Shows(m0, t0.leaf, va, start)
    requires NoNul(start) && va + |start| == w * 4096 + off
    requires 0 <= w < USERPAGES && w in t.leaf && t.leaf[w].Pte? && t.leaf[w].ppn == pa && IsFrame(k.mem, pa)
    requires 0 <= off < 4096 && 0 < n && off + n <= 4096
    ensures Shows(m0, t0.leaf, va, data) && NoNul(data) && |start| <= |data| <= |start| + n
    ensures found ==> |data| < |start| + n && ByteAt(m0, t0.leaf, va + |data|) == 0
    ensures !found ==> |data| == |start| + n
  {
    hide SameView, ByteAt;
    var j := 0;
    data := start;
    while j < n
      invariant 0 <= j <= n && |data| == |start| + j && Shows(m0, t0.leaf, va, data) && NoNul(data)
    {
      ShowsOne(m0, t0, k.mem, t, va, data, w, off + j);
      var c := k.mem[pa].bytes[off + j];
      if c == 0 { return true, data; }
      data := data + [c];
      j := j + 1;
    }
    found := false;
  }
}
