/**
  The memory of all processes: what allocproc, freeproc, kfork, sbrk and page faults
  (proc.c, sysproc.c, trap.c) do to it, and why no process can touch another's.

  Every allocatable page is free or belongs to exactly one process, as a page-table
  page, a user page or the trapframe.  Each operation on one process keeps this, loses
  no page, and leaves every other process exactly as it was.
 */
module ProcMemory {
  import opened Sv39
  import opened Vm
  import opened PageCost
  import opened UserMem
  import opened UserCopy
  import opened Fork
  import opened Spaces

  /** The memory fields of struct proc: page table, size, trapframe. */
  datatype Proc = Proc(root: int, sz: int, tf: int)

  /** Physical memory, the free list, the processes, and the trees their page tables denote. */
  datatype System = System(mem: Mem, free: seq<int>, procs: map<int, Proc>, trees: map<int, Tree>)

  ghost function Mine(p: Proc, t: Tree): set<int> {
    Owned(t) + {p.tf}
  }

  ghost predicate ProcOk(mem: Mem, free: seq<int>, end: int, tramp: int, p: Proc, t: Tree) {
    && SpaceOk(mem, free, end, t, p.sz) && t.root == p.root && Upper(t.leaf, tramp, p.tf)
    && end <= p.tf < PHYSTOP && IsFrame(mem, p.tf) && p.tf !in free && p.tf !in Owned(t)
  }

  /** The pages of process i, none if there is no such process. */
  ghost function PagesOf(s: System, i: int): set<int> {
    if i in s.procs && i in s.trees then Mine(s.procs[i], s.trees[i]) else {}
  }

  ghost predicate Fine(s: System, end: int, tramp: int, i: int) {
    i in s.procs && i in s.trees && ProcOk(s.mem, s.free, end, tramp, s.procs[i], s.trees[i])
  }

  ghost predicate SystemOk(s: System, end: int, tramp: int) {
    && FreeOk(s.mem, s.free, end) && s.procs.Keys == s.trees.Keys
    && (forall i {:trigger Fine(s, end, tramp, i)} :: i in s.procs ==> Fine(s, end, tramp, i))
    && (forall i, j {:trigger PagesOf(s, i), PagesOf(s, j)} :: i != j ==> PagesOf(s, i) !! PagesOf(s, j))
  }

  /** Process j is exactly as it was: size, translations, memory and trapframe. */
  ghost predicate Unchanged(s: System, s': System, j: int) {
    && (j in s'.procs <==> j in s.procs) && (j in s'.trees <==> j in s.trees)
    && (j in s.procs && j in s.trees && j in s'.procs && j in s'.trees ==>
      && s'.procs[j] == s.procs[j] && s'.trees[j] == s.trees[j]
      && SameView(s.mem, s.trees[j], s'.mem, s'.trees[j])
      && (s.procs[j].tf in s.mem ==> s.procs[j].tf in s'.mem && s'.mem[s.procs[j].tf] == s.mem[s.procs[j].tf]))
  }

  ghost predicate OthersKept(s: System, s': System, i: int) {
    forall j {:trigger Unchanged(s, s', j)} :: j != i ==> Unchanged(s, s', j)
  }

  /** p is free or belongs to a process. */
  ghost predicate Accounted(s: System, p: int) {
    p in s.free || exists i :: p in PagesOf(s, i)
  }

  /** No page is lost and none appears. */
  ghost predicate Balanced(s: System, s': System) {
    forall p :: Accounted(s, p) <==> Accounted(s', p)
  }

  /** Process i, and nothing else, changed; it traded pages with the free list only. */
  ghost predicate OneChanged(s: System, s': System, i: int) {
    && (forall j :: j != i ==> (j in s'.procs <==> j in s.procs) && (j in s'.trees <==> j in s.trees))
    && (forall j :: j != i && j in s.procs && j in s'.procs ==> s'.procs[j] == s.procs[j])
    && (forall j :: j != i && j in s.trees && j in s'.trees ==> s'.trees[j] == s.trees[j])
    && PagesOf(s', i) + FreeSet(s'.free) == PagesOf(s, i) + FreeSet(s.free)
    && SameOutside(s.mem, s'.mem, PagesOf(s, i) + FreeSet(s.free))
  }

  lemma FineApart(s: System, end: int, tramp: int, j: int)
    requires Fine(s, end, tramp, j)
    ensures PagesOf(s, j) !! FreeSet(s.free)
  {
    hide Valid, FramesOk;
    Apart(s.mem, s.free, end, s.trees[j]);
  }

  lemma OtherStays(s: System, s': System, end: int, tramp: int, i: int, j: int)
    requires SystemOk(s, end, tramp) && OneChanged(s, s', i) && FreeOk(s'.mem, s'.free, end)
    requires j != i && j in s.procs
    ensures Fine(s', end, tramp, j) && Unchanged(s, s', j)
  {
    hide Valid, FramesOk;
    assert Fine(s, end, tramp, j);
    FineApart(s, end, tramp, j);
    assert PagesOf(s, j) !! PagesOf(s, i);
    assert PagesOf(s, j) !! PagesOf(s, i) + FreeSet(s.free);
    var t := s.trees[j];
    assert Owned(t) <= PagesOf(s, j) && s.procs[j].tf in PagesOf(s, j);
    forall p | p in PagesOf(s, j) ensures p !in s'.free {
      assert p !in FreeSet(s'.free);
    }
    BystanderTable(s.mem, s.free, end, s'.mem, s'.free, t);
    BystanderFrames(s.mem, s.free, end, s'.mem, s'.free, t);
  }

  lemma OneChangedKeeps(s: System, s': System, end: int, tramp: int, i: int)
    requires SystemOk(s, end, tramp) && OneChanged(s, s', i) && FreeOk(s'.mem, s'.free, end)
    requires s'.procs.Keys == s'.trees.Keys && (i in s'.procs ==> Fine(s', end, tramp, i))
    ensures SystemOk(s', end, tramp) && OthersKept(s, s', i) && Balanced(s, s')
  {
    hide FreeOk, ProcOk, Mine;
    forall j {:trigger Fine(s', end, tramp, j)} | j in s'.procs ensures Fine(s', end, tramp, j) {
      if j != i { OtherStays(s, s', end, tramp, i, j); }
    }
    forall j {:trigger Unchanged(s, s', j)} | j != i ensures Unchanged(s, s', j) {
      if j in s.procs { OtherStays(s, s', end, tramp, i, j); }
    }
    forall j | j != i ensures PagesOf(s', j) == PagesOf(s, j) && PagesOf(s, j) !! FreeSet(s.free) {
      if j in s.procs { assert Fine(s, end, tramp, j); FineApart(s, end, tramp, j); }
    }
    DisjointStays(s, s', end, tramp, i);
    BalancedStays(s, s', end, tramp, i);
  }

  lemma DisjointStays(s: System, s': System, end: int, tramp: int, i: int)
    requires SystemOk(s, end, tramp) && OneChanged(s, s', i)
    requires forall j :: j != i ==> PagesOf(s', j) == PagesOf(s, j) && PagesOf(s, j) !! FreeSet(s.free)
    ensures forall a, b {:trigger PagesOf(s', a), PagesOf(s', b)} :: a != b ==> PagesOf(s', a) !! PagesOf(s', b)
  {
    hide FreeOk, PagesOf, Fine;
    forall a, b {:trigger PagesOf(s', a), PagesOf(s', b)} | a != b ensures PagesOf(s', a) !! PagesOf(s', b) {
      assert PagesOf(s, a) !! PagesOf(s, b);
      assert PagesOf(s', i) <= PagesOf(s, i) + FreeSet(s.free);
    }
  }

  lemma BalancedStays(s: System, s': System, end: int, tramp: int, i: int)
    requires OneChanged(s, s', i)
    requires forall j :: j != i ==> PagesOf(s', j) == PagesOf(s, j)
    ensures Balanced(s, s')
  {
    hide PagesOf;
    forall p ensures Accounted(s, p) <==> Accounted(s', p) {
      assert p in s.free <==> p in FreeSet(s.free);
      assert p in s'.free <==> p in FreeSet(s'.free);
      if p in PagesOf(s, i) || p in s.free {
        assert p in PagesOf(s', i) || p in s'.free;
      }
      if p in PagesOf(s', i) || p in s'.free {
        assert p in PagesOf(s, i) || p in s.free;
      }
      if Accounted(s, p) && p !in s.free {
        var j :| p in PagesOf(s, j);
        if j != i { assert p in PagesOf(s', j); }
      }
      if Accounted(s', p) && p !in s'.free {
        var j :| p in PagesOf(s', j);
        if j != i { assert p in PagesOf(s, j); }
      }
    }
  }

  /** An operation on process i within its address space. */
  ghost predicate SpaceChanged(s: System, s': System, i: int, p': Proc, t': Tree) {
    && i in s.procs && i in s.trees && s'.procs == s.procs[i := p'] && s'.trees == s.trees[i := t']
    && p'.root == s.procs[i].root && p'.tf == s.procs[i].tf
    && Conserved(s.mem, s.free, s.trees[i], s'.mem, s'.free, t')
    && SameUpper(s.trees[i].leaf, t'.leaf)
  }

  lemma SpaceChangedKeeps(s: System, s': System, end: int, tramp: int, i: int, p': Proc, t': Tree)
    requires SystemOk(s, end, tramp) && SpaceChanged(s, s', i, p', t')
    requires SpaceOk(s'.mem, s'.free, end, t', p'.sz)
    ensures SystemOk(s', end, tramp) && OthersKept(s, s', i) && Balanced(s, s')
    ensures p'.tf in s.mem && p'.tf in s'.mem && s'.mem[p'.tf] == s.mem[p'.tf]
  {
    hide SpaceOk, FreeOk, ProcOk, Owned, SystemOk;
    KeysAgree(s, end, tramp);
    SpaceFree(s'.mem, s'.free, end, t', p'.sz);
    TrapframeStays(s, s', end, tramp, i, p', t');
    assert OneChanged(s, s', i);
    OneChangedKeeps(s, s', end, tramp, i);
  }

  lemma SpaceFree(mem: Mem, free: seq<int>, end: int, t: Tree, sz: int)
    requires SpaceOk(mem, free, end, t, sz)
    ensures FreeOk(mem, free, end)
  {
  }

  lemma KeysAgree(s: System, end: int, tramp: int)
    requires SystemOk(s, end, tramp)
    ensures s.procs.Keys == s.trees.Keys && FreeOk(s.mem, s.free, end)
    ensures forall i :: i in s.procs ==> Fine(s, end, tramp, i)
  {
  }

  lemma TrapframeStays(s: System, s': System, end: int, tramp: int, i: int, p': Proc, t': Tree)
    requires Fine(s, end, tramp, i) && SpaceChanged(s, s', i, p', t') && SpaceOk(s'.mem, s'.free, end, t', p'.sz)
    ensures Fine(s', end, tramp, i) && p'.tf in s.mem && s'.mem[p'.tf] == s.mem[p'.tf]
  {
    hide SpaceOk, Owned;
    assert p'.tf !in FreeSet(s.free);
    assert p'.tf !in FreeSet(s'.free) && p'.tf !in Owned(t');
  }

  /** The 288 bytes of struct trapframe, with a0 (at offset 112) cleared, over a page. */
  function TrapCopy(from: seq<int>, to: seq<int>): seq<int>
    requires |from| == PGSIZE && |to| == PGSIZE
  {
    from[..112] + [0, 0, 0, 0, 0, 0, 0, 0] + from[120..288] + to[288..]
  }

  /** The child's saved registers are the parent's, except that fork returns 0 in a0. */
  ghost predicate TrapCopied(parent: seq<int>, child: seq<int>) {
    |parent| == PGSIZE && |child| == PGSIZE &&
    forall b :: 0 <= b < 288 ==> child[b] == if 112 <= b < 120 then 0 else parent[b]
  }

  ghost predicate ForkRegisters(mem: Mem, p: int, q: int) {
    IsFrame(mem, p) && IsFrame(mem, q) && TrapCopied(mem[p].bytes, mem[q].bytes)
  }

  /**
    The pages a fork of the process with page table t takes: its trapframe, a root table and the
    two tables over the trampoline, and what it costs to map a copy of each of t's user pages below them.
   */
  ghost function ForkCost(t: Tree): nat {
    4 + Cost({255}, {0x1_ffff}, PagesFrom(t.leaf, 0))
  }

  class Processes {
    const k: Kernel
    const tramp: int                  // physical page of the trampoline
    var procs: map<int, Proc>
    ghost var trees: map<int, Tree>

    ghost function Now(): System
      reads this, k
    {
      System(k.mem, k.free, procs, trees)
    }

    ghost predicate Ok()
      reads this, k
    {
      SystemOk(Now(), k.end, tramp)
    }

    /** Before the first process, every page the allocator has is free. */
    constructor (kernel: Kernel, trampoline: int)
      requires FreeOk(kernel.mem, kernel.free, kernel.end)
      ensures Ok() && procs == map[] && k == kernel
      ensures forall p :: Accounted(Now(), p) <==> p in kernel.free
    {
      k, tramp := kernel, trampoline;
      procs, trees := map[], map[];
    }

    /** The memory part of allocproc: a trapframe page and a page table without user memory, or nothing. */
    method AllocProc(i: int) returns (ok: bool)
      requires Ok() && i !in procs
      modifies this, k
      ensures Ok() && OthersKept(old(Now()), Now(), i) && Balanced(old(Now()), Now())
      ensures procs.Keys == if ok then old(procs).Keys + {i} else old(procs).Keys
      ensures ok ==> procs[i].sz == 0 && procs == old(procs)[i := procs[i]]
      ensures !ok ==> procs == old(procs)
      ensures ok <==> |old(k.free)| >= 4
      ensures ok ==> |k.free| + 4 == |old(k.free)|
      ensures ok ==> i in trees && trees == old(trees)[i := trees[i]] && UpperTables(trees[i])
    {
      ghost var s := Now();
      hide SpaceOk, SystemOk, OthersKept, Balanced, FreeOk, Owned, Fine, Upper, UpperTables;
      KeysAgree(s, k.end, tramp);
      var tf := k.Kalloc();
      ok := tf != 0;
      if tf == 0 {
        NothingDone(s, k.end, tramp, i);
        return;
      }
      ghost var m1, f1 := k.mem, k.free;
      var root;
      ghost var t;
      root, t := ProcPagetable(k, tramp, tf);
      TrapframeApart(s, k.end, tf, m1, f1, k.mem, k.free);
      if root == 0 {
        k.Kfree(tf);
        FreedAgain(s, Now(), k.end, tramp, i, tf);
        return false;
      }
      procs := procs[i := Proc(root, 0, tf)];
      trees := trees[i := t];
      SpaceAdded(s, Now(), k.end, tramp, i, m1, f1);
    }

    /** The memory part of freeproc: all pages of the process are free. */
    method FreeProc(i: int)
      requires Ok() && i in procs
      modifies this, k
      ensures Ok() && OthersKept(old(Now()), Now(), i) && Balanced(old(Now()), Now())
      ensures procs == old(procs) - {i}
      ensures FreeSet(k.free) == FreeSet(old(k.free)) + PagesOf(old(Now()), i)
    {
      ghost var s := Now();
      KeysAgree(s, k.end, tramp);
      hide SystemOk, OthersKept, Balanced, FreeOk, SpaceOk, Fine, Owned, Upper;
      FineFacts(s, k.end, tramp, i);
      var p := procs[i];
      ghost var t := trees[i];
      k.Kfree(p.tf);
      TrapframeFreed(s, Now(), k.end, tramp, i);
      ghost var m1, f1 := k.mem, k.free;
      ProcFreePagetable(k, p.root, p.sz, t, tramp, p.tf);
      procs := procs - {i};
      trees := trees - {i};
      SpaceRemoved(s, Now(), k.end, tramp, i, m1, f1);
    }

    /** The call of uvmcopy in kfork, for a child j that has no memory yet. */
    method CopySpace(i: int, j: int) returns (ok: bool)
      requires Ok() && i in procs && j in procs && i != j && procs[j].sz == 0
      modifies this, k
      ensures Ok() && OthersKept(old(Now()), Now(), j) && Balanced(old(Now()), Now())
      ensures procs == if ok then old(procs)[j := old(procs)[j].(sz := old(procs)[i].sz)] else old(procs)
      ensures i in trees && j in trees
      ensures ok ==> forall w :: 0 <= w < USERPAGES ==> SamePage(k.mem, trees[i], trees[j], w)
      ensures old(i in trees && j in trees) &&
        (ok <==> |old(k.free)| >= Needed(old(trees)[j], PagesFrom(old(trees)[i].leaf, 0)))
    {
      ghost var s := Now();
      hide SystemOk, OthersKept, Balanced, FreeOk, SpaceOk, Fine, Owned, Upper, Conserved, SameUpper;
      hide SameView, CopyOf, SamePage, Below, SpaceChanged, Needed, PagesFrom;
      KeysAgree(s, k.end, tramp);
      FineFacts(s, k.end, tramp, i);
      FineFacts(s, k.end, tramp, j);
      Disjoint(s, k.end, tramp, i, j);
      SpaceBelow(s, k.end, tramp, i);
      var p, q := procs[i], procs[j];
      var r; ghost var child;
      r, child := UvmCopy(k, p.root, q.root, p.sz, trees[i], trees[j]);
      ok := r == 0;
      if ok {
        CopyUpper(k.mem, trees[i], trees[j], child, PageUp(p.sz));
        SpaceSize(k.mem, k.free, k.end, child, p.sz);
        CopyWhole(k.mem, trees[i], trees[j], child, PageUp(p.sz));
        q := q.(sz := p.sz);
      } else {
        SameUpperAlways(trees[j].leaf, child.leaf);
      }
      assert procs == procs[j := procs[j]];
      procs := procs[j := q];
      trees := trees[j := child];
      MakeChange(s, Now(), j, q, child);
      SpaceChangedKeeps(s, Now(), k.end, tramp, j, q, child);
    }

    /** kfork's copy of the trapframe. */
    method CopyTrapframe(i: int, j: int)
      requires Ok() && i in procs && j in procs && i != j && i in trees && j in trees
      requires forall w :: 0 <= w < USERPAGES ==> SamePage(k.mem, trees[i], trees[j], w)
      modifies k
      ensures Ok() && OthersKept(old(Now()), Now(), j) && Balanced(old(Now()), Now())
      ensures forall w :: 0 <= w < USERPAGES ==> SamePage(k.mem, trees[i], trees[j], w)
      ensures ForkRegisters(k.mem, procs[i].tf, procs[j].tf)
    {
      ghost var s := Now();
      hide SystemOk, Fine, SpaceOk, FreeOk, Upper, OthersKept, Balanced, SamePage;
      KeysAgree(s, k.end, tramp);
      FineFacts(s, k.end, tramp, i);
      FineFacts(s, k.end, tramp, j);
      Different(s, k.end, tramp, i, j);
      var p, q := procs[i].tf, procs[j].tf;
      k.mem := k.mem[q := Frame(TrapCopy(k.mem[p].bytes, k.mem[q].bytes))];
      TrapframeWritten(s, Now(), k.end, tramp, i, j);
    }

    /**
      The memory part of kfork: child j of process i sees what i sees, in pages of its own,
      with i's registers but for a zero result; or there is no child and no page is lost.
     */
    method Kfork(i: int, j: int) returns (ok: bool)
      requires Ok() && i in procs && j !in procs
      modifies this, k
      ensures Ok() && OthersKept(old(Now()), Now(), j) && Balanced(old(Now()), Now())
      ensures !ok ==> procs == old(procs)
      ensures ok ==>
        j in procs && j in trees && i in trees && procs == old(procs)[j := procs[j]] && procs[j].sz == procs[i].sz
      ensures ok ==> forall w :: 0 <= w < USERPAGES ==> SamePage(k.mem, trees[i], trees[j], w)
      ensures ok ==> ForkRegisters(k.mem, procs[i].tf, procs[j].tf)
      ensures old(i in trees) && (ok <==> |old(k.free)| >= ForkCost(old(trees)[i]))
    {
      ghost var s0 := Now();
      hide SystemOk, OthersKept, Balanced, SamePage, ForkRegisters, Fine, PagesOf, FreeOk, PagesFrom, Cost;
      KeysAgree(s0, k.end, tramp);
      ok := AllocProc(j);
      if !ok { return; }
      ghost var s1 := Now();
      ok := CopySpace(i, j);
      ghost var s2 := Now();
      if ok {
        CopyTrapframe(i, j);
      } else {
        FreeProc(j);
        assert procs == old(procs);
      }
      KeptThrice(s0, s1, s2, Now(), j);
    }

    /** sys_sbrk by process i. */
    method Sbrk(i: int, n: int, eager: bool) returns (addr: int)
      requires Ok() && i in procs && -0x8000_0000 <= n < 0x8000_0000
      modifies this, k
      ensures Ok() && i in trees && i in procs && OthersKept(old(Now()), Now(), i) && Balanced(old(Now()), Now())
      ensures addr == -1 ==> procs == old(procs)
      ensures addr != -1 ==>
        addr == old(procs[i].sz) && procs == old(procs)[i := old(procs[i]).(sz := Resized(old(procs[i].sz), n))]
      ensures old(i in trees) && var z, z' := old(procs[i].sz), procs[i].sz;
        CutView(old(k.mem), old(trees)[i], k.mem, trees[i], PageUp(z'), PageUp(z) - PageUp(z'))
      ensures eager ==> (addr != -1 <==> GrowthFits(|old(k.free)|, old(trees)[i], old(procs[i].sz), n))
      ensures !eager ==> (addr != -1 <==> old(procs[i].sz) + n <= TRAPFRAME)
    {
      ghost var s := Now();
      hide SpaceOk, SystemOk, OthersKept, Balanced, Conserved, CutView, SameUpper, Fine, FreeOk, GrowthFits;
      KeysAgree(s, k.end, tramp);
      FineFacts(s, k.end, tramp, i);
      var p := procs[i];
      ghost var t := trees[i];
      var sz';
      ghost var t';
      SpaceSize(k.mem, k.free, k.end, t, p.sz);
      addr, sz', t' := SysSbrk(k, p.root, p.sz, n, eager, t);
      assert procs[i := p] == procs;
      procs := procs[i := p.(sz := sz')];
      trees := trees[i := t'];
      SpaceChangedKeeps(s, Now(), k.end, tramp, i, p.(sz := sz'), t');
    }

    /** The kernel writes to the memory of process i: copyout. */
    method Deliver(i: int, dst: int, src: seq<int>) returns (r: int, ghost n: nat)
      requires Ok() && i in procs && 0 <= dst
      modifies this, k
      ensures Ok() && procs == old(procs) && OthersKept(old(Now()), Now(), i) && Balanced(old(Now()), Now())
      ensures n <= |src| && ((r == 0 && n == |src|) || (r == -1 && n < |src|))
      ensures i in trees && old(i in trees)
      ensures var w := (dst + n) / 4096;
        r == -1 ==> !Reach(old(trees)[i].leaf, procs[i].sz, w, true) || OutOfMemory(k.free, trees[i], w)
      ensures Overwritten(old(k.mem), old(trees)[i].leaf, k.mem, trees[i].leaf, dst, src[..n])
    {
      ghost var s := Now();
      hide SpaceOk, SystemOk, OthersKept, Balanced, Conserved, SameUpper, Fine, FreeOk, Overwritten, Reach, OutOfMemory;
      KeysAgree(s, k.end, tramp);
      FineFacts(s, k.end, tramp, i);
      var p := procs[i];
      ghost var t := trees[i];
      ghost var t';
      r, t', n := CopyOut(k, p.root, p.sz, dst, src, t);
      trees := trees[i := t'];
      assert procs[i := p] == procs;
      SpaceChangedKeeps(s, Now(), k.end, tramp, i, p, t');
    }

    /** A page fault of process i at address va, as usertrap handles it. */
    method Fault(i: int, va: int) returns (r: int)
      requires Ok() && i in procs && 0 <= va
      modifies this, k
      ensures Ok() && procs == old(procs) && OthersKept(old(Now()), Now(), i) && Balanced(old(Now()), Now())
      ensures i in trees && old(i in trees) && SameView(old(k.mem), old(trees)[i], k.mem, trees[i])
      ensures r != 0 ==> va < procs[i].sz && va / PGSIZE !in old(trees)[i].leaf && va / PGSIZE in trees[i].leaf
      ensures r != 0 <==> (va < procs[i].sz && va / PGSIZE !in old(trees)[i].leaf &&
        |old(k.free)| >= Needed(old(trees)[i], {va / PGSIZE}))
    {
      ghost var s := Now();
      hide SpaceOk, SystemOk, OthersKept, Balanced, Conserved, SameView, SameUpper, Fine, FreeOk;
      KeysAgree(s, k.end, tramp);
      FineFacts(s, k.end, tramp, i);
      var p := procs[i];
      ghost var t := trees[i];
      ghost var t';
      r, t' := VmFault(k, p.root, p.sz, va, t);
      FaultUpper(s, k.end, tramp, i, va / PGSIZE, r, t');
      trees := trees[i := t'];
      assert procs[i := p] == procs;
      SpaceChangedKeeps(s, Now(), k.end, tramp, i, p, t');
    }
  }

  lemma FaultUpper(s: System, end: int, tramp: int, i: int, w: int, r: int, t': Tree)
    requires Fine(s, end, tramp, i) && (r != 0 ==> w !in s.trees[i].leaf && w * 4096 < s.procs[i].sz)
    requires t'.leaf == if r != 0 then s.trees[i].leaf[w := Pte(r, Flags(true, true, false, true))] else s.trees[i].leaf
    ensures SameUpper(s.trees[i].leaf, t'.leaf)
  {
  }

  lemma NothingDone(s: System, end: int, tramp: int, i: int)
    requires SystemOk(s, end, tramp) && i !in s.procs
    ensures OthersKept(s, s, i) && Balanced(s, s)
  {
    hide FreeOk, Fine, PagesOf, SameView;
    forall j {:trigger Unchanged(s, s, j)} | j != i ensures Unchanged(s, s, j) {
      assert j in s.trees ==> SameView(s.mem, s.trees[j], s.mem, s.trees[j]) by {
        if j in s.trees { ViewSame(s.mem, s.trees[j]); }
      }
    }
  }

  lemma ViewSame(mem: Mem, t: Tree)
    ensures SameView(mem, t, mem, t)
  {
  }

  /** While a new page table is built, the new trapframe page stays put. */
  lemma TrapframeApart(s: System, end: int, tf: int, m1: Mem, f1: seq<int>, m2: Mem, f2: seq<int>)
    requires FreeOk(s.mem, s.free, end) && tf in s.free && m1 == s.mem[tf := Junk5()] && tf !in f1
    requires FreeSet(f1) == FreeSet(s.free) - {tf} && FreeSet(f2) <= FreeSet(f1) && SameOutside(m1, m2, FreeSet(f1))
    ensures end <= tf < PHYSTOP && tf in m2 && tf !in f2 && m2[tf] == Junk5() && IsFrame(m2, tf)
    ensures SameOutside(s.mem, m2, FreeSet(s.free))
  {
    assert tf !in FreeSet(f1);
    assert tf in f2 ==> tf in FreeSet(f2);
  }

  lemma FreedAgain(s: System, s': System, end: int, tramp: int, i: int, tf: int)
    requires SystemOk(s, end, tramp) && i !in s.procs && s'.procs == s.procs && s'.trees == s.trees
    requires FreeOk(s'.mem, s'.free, end) && FreeSet(s'.free) == FreeSet(s.free)
    requires SameOutside(s.mem, s'.mem, FreeSet(s.free))
    ensures SystemOk(s', end, tramp) && OthersKept(s, s', i) && Balanced(s, s')
  {
    hide FreeOk, Fine;
    OneChangedKeeps(s, s', end, tramp, i);
  }

  lemma SpaceAdded(s: System, s': System, end: int, tramp: int, i: int, m1: Mem, f1: seq<int>)
    requires SystemOk(s, end, tramp) && i !in s.procs && i in s'.procs && i in s'.trees
    requires s'.procs == s.procs[i := s'.procs[i]] && s'.trees == s.trees[i := s'.trees[i]]
    requires var p, t := s'.procs[i], s'.trees[i];
      && SpaceOk(s'.mem, s'.free, end, t, p.sz) && t.root == p.root && Upper(t.leaf, tramp, p.tf)
      && end <= p.tf < PHYSTOP && IsFrame(s'.mem, p.tf) && p.tf !in s'.free
      && p.tf in s.free && FreeSet(f1) == FreeSet(s.free) - {p.tf} && FreeSet(f1) == FreeSet(s'.free) + Owned(t)
    requires SameOutside(s.mem, s'.mem, FreeSet(s.free))
    ensures SystemOk(s', end, tramp) && OthersKept(s, s', i) && Balanced(s, s')
  {
    hide SpaceOk, FreeOk, Owned, SystemOk;
    KeysAgree(s, end, tramp);
    var p, t := s'.procs[i], s'.trees[i];
    SpaceFree(s'.mem, s'.free, end, t, p.sz);
    assert p.tf !in FreeSet(f1) && p.tf in FreeSet(s.free);
    assert PagesOf(s', i) == Owned(t) + {p.tf} && PagesOf(s, i) == {};
    NewPages(Owned(t), FreeSet(s'.free), FreeSet(f1), FreeSet(s.free), p.tf);
    assert {} + FreeSet(s.free) == FreeSet(s.free);
    assert OneChanged(s, s', i);
    OneChangedKeeps(s, s', end, tramp, i);
  }

  lemma NewPages(own: set<int>, free': set<int>, f1: set<int>, free: set<int>, p: int)
    requires p in free && f1 == free - {p} && f1 == free' + own
    ensures own + {p} + free' == {} + free
  {
    assert f1 + {p} == free;
  }

  /** freeproc frees the trapframe before the page table that still maps it. */
  lemma TrapframeFreed(s: System, s1: System, end: int, tramp: int, i: int)
    requires Fine(s, end, tramp, i) && s1.procs == s.procs && s1.trees == s.trees && FreeOk(s1.mem, s1.free, end)
    requires FreeSet(s1.free) == FreeSet(s.free) + {s.procs[i].tf} && SameOutside(s.mem, s1.mem, {s.procs[i].tf})
    ensures SpaceOk(s1.mem, s1.free, end, s.trees[i], s.procs[i].sz)
  {
    hide Valid, FramesOk;
    var t, tf := s.trees[i], s.procs[i].tf;
    Apart(s.mem, s.free, end, t);
    forall p | p in Owned(t) ensures p !in s1.free {
      assert p !in FreeSet(s.free) + {tf};
      assert p !in FreeSet(s1.free);
    }
    BystanderTable(s.mem, s.free, end, s1.mem, s1.free, t);
    BystanderFrames(s.mem, s.free, end, s1.mem, s1.free, t);
  }

  lemma FineFacts(s: System, end: int, tramp: int, i: int)
    requires Fine(s, end, tramp, i)
    ensures i in s.procs && i in s.trees
    ensures var p, t := s.procs[i], s.trees[i];
      && SpaceOk(s.mem, s.free, end, t, p.sz) && FreeOk(s.mem, s.free, end) && t.root == p.root
      && Upper(t.leaf, tramp, p.tf) && end <= p.tf < PHYSTOP && IsFrame(s.mem, p.tf) && p.tf !in s.free
  {
    hide Upper;
    SpaceFree(s.mem, s.free, end, s.trees[i], s.procs[i].sz);
  }

  lemma SpaceRemoved(s: System, s': System, end: int, tramp: int, i: int, m1: Mem, f1: seq<int>)
    requires SystemOk(s, end, tramp) && i in s.procs && i in s.trees && FreeOk(s'.mem, s'.free, end)
    requires s'.procs == s.procs - {i} && s'.trees == s.trees - {i}
    requires FreeSet(f1) == FreeSet(s.free) + {s.procs[i].tf} && SameOutside(s.mem, m1, {s.procs[i].tf})
    requires FreeSet(s'.free) == FreeSet(f1) + Owned(s.trees[i]) && SameOutside(m1, s'.mem, Owned(s.trees[i]))
    ensures SystemOk(s', end, tramp) && OthersKept(s, s', i) && Balanced(s, s')
    ensures FreeSet(s'.free) == FreeSet(s.free) + PagesOf(s, i)
  {
    hide SystemOk, FreeOk, Owned;
    KeysAgree(s, end, tramp);
    assert PagesOf(s, i) == Owned(s.trees[i]) + {s.procs[i].tf} && PagesOf(s', i) == {};
    hide PagesOf;
    GonePages(Owned(s.trees[i]), FreeSet(s.free), FreeSet(f1), FreeSet(s'.free), s.procs[i].tf);
    OutsideBoth(s.mem, m1, s'.mem, {s.procs[i].tf}, Owned(s.trees[i]), PagesOf(s, i) + FreeSet(s.free));
    assert OneChanged(s, s', i);
    OneChangedKeeps(s, s', end, tramp, i);
  }

  lemma GonePages(own: set<int>, free: set<int>, f1: set<int>, free': set<int>, p: int)
    requires f1 == free + {p} && free' == f1 + own
    ensures {} + free' == own + {p} + free && free' == free + (own + {p})
  {
  }

  lemma OutsideBoth(m: Mem, m1: Mem, m2: Mem, a: set<int>, b: set<int>, c: set<int>)
    requires SameOutside(m, m1, a) && SameOutside(m1, m2, b) && a <= c && b <= c
    ensures SameOutside(m, m2, c)
  {
  }

  lemma Disjoint(s: System, end: int, tramp: int, i: int, j: int)
    requires SystemOk(s, end, tramp) && i in s.procs && j in s.procs && i != j && i in s.trees && j in s.trees
    ensures Owned(s.trees[i]) !! Owned(s.trees[j])
  {
    hide FreeOk, Fine, Owned;
    assert PagesOf(s, i) !! PagesOf(s, j);
  }

  lemma Different(s: System, end: int, tramp: int, i: int, j: int)
    requires SystemOk(s, end, tramp) && i in s.procs && j in s.procs && i != j && i in s.trees && j in s.trees
    ensures s.procs[i].tf != s.procs[j].tf && s.procs[j].tf !in Owned(s.trees[i]) && s.procs[j].tf !in Owned(s.trees[j])
  {
    hide FreeOk, SpaceOk, Owned, Upper;
    assert PagesOf(s, i) !! PagesOf(s, j);
    assert Fine(s, end, tramp, j);
    assert s.procs[i].tf in PagesOf(s, i) && s.procs[j].tf in PagesOf(s, j);
  }

  lemma SameUpperAlways(leaf: map<int, Pte>, leaf': map<int, Pte>)
    requires leaf' == leaf
    ensures SameUpper(leaf, leaf')
  {
  }

  lemma CopyUpper(mem: Mem, parent: Tree, empty: Tree, child: Tree, n: int)
    requires CopyOf(mem, parent, empty, child, n)
    ensures SameUpper(empty.leaf, child.leaf)
  {
  }

  lemma SpaceBelow(s: System, end: int, tramp: int, i: int)
    requires Fine(s, end, tramp, i)
    ensures Below(s.trees[i].leaf, PageUp(s.procs[i].sz))
  {
    hide Valid, FramesOk;
  }

  lemma KeptThrice(s0: System, s1: System, s2: System, s3: System, j: int)
    requires OthersKept(s0, s1, j) && OthersKept(s1, s2, j) && OthersKept(s2, s3, j)
    requires Balanced(s0, s1) && Balanced(s1, s2) && Balanced(s2, s3)
    requires s0.procs.Keys == s0.trees.Keys
    ensures OthersKept(s0, s3, j) && Balanced(s0, s3)
  {
    hide Accounted;
    forall i {:trigger Unchanged(s0, s3, i)} | i != j ensures Unchanged(s0, s3, i) {
      assert Unchanged(s0, s1, i) && Unchanged(s1, s2, i) && Unchanged(s2, s3, i);
    }
  }

  /** Writing the trapframe page of j changes nothing but the registers of j. */
  lemma TrapframeWritten(s: System, s': System, end: int, tramp: int, i: int, j: int)
    requires SystemOk(s, end, tramp) && i in s.procs && j in s.procs && i != j && i in s.trees && j in s.trees
    requires s.procs[j].tf in s.mem && s'.procs == s.procs && s'.trees == s.trees && s'.free == s.free
    requires s'.mem.Keys == s.mem.Keys && IsFrame(s'.mem, s.procs[j].tf) && SameOutside(s.mem, s'.mem, {s.procs[j].tf})
    requires forall w :: 0 <= w < USERPAGES ==> SamePage(s.mem, s.trees[i], s.trees[j], w)
    ensures SystemOk(s', end, tramp) && OthersKept(s, s', j) && Balanced(s, s')
    ensures forall w :: 0 <= w < USERPAGES ==> SamePage(s'.mem, s'.trees[i], s'.trees[j], w)
  {
    hide SystemOk, FreeOk, SpaceOk, Owned, Upper, SameView;
    KeysAgree(s, end, tramp);
    FineFacts(s, end, tramp, j);
    Different(s, end, tramp, i, j);
    var t, tf := s.trees[j], s.procs[j].tf;
    assert s.mem.Keys == s'.mem.Keys;
    FreeSameKeys(s.mem, s'.mem, s.free, end);
    assert forall p :: p in Owned(t) ==> p != tf;
    SpaceElsewhere(s.mem, s.free, end, s'.mem, t, s.procs[j].sz);
    assert Fine(s', end, tramp, j);
    assert OneChanged(s, s', j);
    OneChangedKeeps(s, s', end, tramp, j);
    assert Unchanged(s, s', i);
    SamePageStays(s.mem, s'.mem, s.trees[i], t);
  }

  lemma FreeSameKeys(mem: Mem, mem': Mem, free: seq<int>, end: int)
    requires FreeOk(mem, free, end) && mem'.Keys == mem.Keys
    ensures FreeOk(mem', free, end)
  {
  }

  lemma SpaceElsewhere(mem: Mem, free: seq<int>, end: int, mem': Mem, t: Tree, sz: int)
    requires SpaceOk(mem, free, end, t, sz) && FreeOk(mem', free, end) && mem'.Keys == mem.Keys
    requires forall p :: p in Owned(t) && p in mem ==> mem'[p] == mem[p]
    ensures SpaceOk(mem', free, end, t, sz) && SameView(mem, t, mem', t)
  {
    hide Valid, FramesOk;
    Apart(mem, free, end, t);
    assert forall p :: p in free ==> p in FreeSet(free);
    BystanderTable(mem, free, end, mem', free, t);
    BystanderFrames(mem, free, end, mem', free, t);
  }

  lemma SamePageStays(m0: Mem, m1: Mem, parent: Tree, child: Tree)
    requires SameView(m0, parent, m1, parent) && SameView(m0, child, m1, child)
    requires forall w :: 0 <= w < USERPAGES ==> SamePage(m0, parent, child, w)
    ensures forall w :: 0 <= w < USERPAGES ==> SamePage(m1, parent, child, w)
  {
    hide PageOf;
    forall w | 0 <= w < USERPAGES ensures SamePage(m1, parent, child, w) {
      assert SamePage(m0, parent, child, w);
    }
  }

  lemma SpaceSize(mem: Mem, free: seq<int>, end: int, t: Tree, sz: int)
    requires SpaceOk(mem, free, end, t, sz)
    ensures 0 <= sz && 0 <= PageUp(sz) <= USERPAGES
  {
    hide Valid, FramesOk;
  }

  lemma MakeChange(s: System, s': System, i: int, p': Proc, t': Tree)
    requires i in s.procs && i in s.trees && s'.procs == s.procs[i := p'] && s'.trees == s.trees[i := t']
    requires p'.root == s.procs[i].root && p'.tf == s.procs[i].tf
    requires Conserved(s.mem, s.free, s.trees[i], s'.mem, s'.free, t') && SameUpper(s.trees[i].leaf, t'.leaf)
    ensures SpaceChanged(s, s', i, p', t')
  {
  }

  /** Right after fork, whatever copyin reads from the parent it reads from the child. */
  lemma ForkReadsSame(mem: Mem, parent: Tree, child: Tree, va: int, data: seq<int>)
    requires forall w :: 0 <= w < USERPAGES ==> SamePage(mem, parent, child, w)
    requires 0 <= va && va + |data| <= TRAPFRAME
    ensures Shows(mem, parent.leaf, va, data) <==> Shows(mem, child.leaf, va, data)
  {
    forall a | va <= a < va + |data| ensures ByteAt(mem, parent.leaf, a) == ByteAt(mem, child.leaf, a) {
      assert SamePage(mem, parent, child, a / 4096);
    }
  }
}
