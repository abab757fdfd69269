/**
  Sv39 page tables (section 4.4 of the RISC-V Privileged Architecture) as the
  kernel keeps them in physical memory, and the flat map they denote.

  Physical pages are numbers; a page holds either 512 PTEs or bytes, and writing
  it one way destroys it as the other.
 */
module Sv39 {
  const PGSIZE := 4096
  const ENTRIES := 512
  const MAXVA := 0x40_0000_0000          // 1 << 38
  const MAXVPN := 0x400_0000             // MAXVA / PGSIZE

  datatype Flags = Flags(r: bool, w: bool, x: bool, u: bool)

  /** A PTE: not valid (all zero), or valid with a physical page and flags. */
  datatype Pte = Zero | Pte(ppn: int, flags: Flags)

  const TO_TABLE := Flags(false, false, false, false)

  datatype Page = Table(pte: seq<Pte>) | Frame(bytes: seq<int>)

  type Mem = map<int, Page>

  /** A page table: its pages by level, and the flat map from virtual page to PTE that it denotes. */
  datatype Tree = Tree(root: int, mid: map<int, int>, low: map<int, int>, leaf: map<int, Pte>)

  ghost predicate IsTable(mem: Mem, p: int) {
    p in mem && mem[p].Table? && |mem[p].pte| == ENTRIES
  }

  /** PX(level, va), for the virtual page number of va. */
  function Px(level: int, vpn: int): int
    requires 0 <= level <= 2
  {
    if level == 2 then vpn / 0x4_0000 % ENTRIES else if level == 1 then vpn / ENTRIES % ENTRIES else vpn % ENTRIES
  }

  /** The three indices of a virtual page name it, below MAXVA. */
  lemma IndicesSplit(vpn: int)
    requires 0 <= vpn < MAXVPN
    ensures Px(2, vpn) == vpn / ENTRIES / ENTRIES && Px(1, vpn) == vpn / ENTRIES % ENTRIES
    ensures vpn == Px(2, vpn) * 0x4_0000 + Px(1, vpn) * ENTRIES + Px(0, vpn)
  {
  }

  // ---------------------------------------------------------------- the bits of a PTE

  function Pa2Pte(pa: bv64): bv64 { (pa >> 12) << 10 }

  function Pte2Pa(pte: bv64): bv64 { (pte >> 10) << 12 }

  function PteFlags(pte: bv64): bv64 { pte & 0x3ff }

  /**
    A page-aligned address below 2^56 and ten flag bits share a PTE without loss: the physical
    page number in bits 10 to 53, the flags below it.
   */
  lemma PteRoundTrip(pa: bv64, flags: bv64)
    requires pa & 0xfff == 0 && pa >> 56 == 0 && flags >> 10 == 0
    ensures Pte2Pa(Pa2Pte(pa) | flags) == pa && PteFlags(Pa2Pte(pa) | flags) == flags
    ensures (Pa2Pte(pa) | flags) >> 10 == pa >> 12 && (Pa2Pte(pa) | flags) & 0x3ff == flags
  {
  }

  // ---------------------------------------------------------------- what memory must look like

  ghost predicate PagesDistinct(t: Tree) {
    && (forall i :: i in t.mid ==> t.mid[i] != t.root)
    && (forall k :: k in t.low ==> t.low[k] != t.root)
    && (forall i, j :: i in t.mid && j in t.mid && i != j ==> t.mid[i] != t.mid[j])
    && (forall k, l :: k in t.low && l in t.low && k != l ==> t.low[k] != t.low[l])
    && (forall i, k :: i in t.mid && k in t.low ==> t.mid[i] != t.low[k])
  }

  ghost predicate TablesPresent(mem: Mem, t: Tree) {
    && IsTable(mem, t.root)
    && (forall i :: i in t.mid ==> 0 <= i < ENTRIES && IsTable(mem, t.mid[i]))
    && (forall k :: k in t.low ==> 0 <= k < ENTRIES * ENTRIES && k / ENTRIES in t.mid && IsTable(mem, t.low[k]))
  }

  /** Level-2 entry i. */
  ghost predicate RootAt(mem: Mem, t: Tree, i: int)
    requires TablesPresent(mem, t) && 0 <= i < ENTRIES
  {
    mem[t.root].pte[i] == if i in t.mid then Pte(t.mid[i], TO_TABLE) else Zero
  }

  /** Level-1 entry for the 512 pages starting at k * 512. */
  ghost predicate MidAt(mem: Mem, t: Tree, k: int)
    requires TablesPresent(mem, t) && 0 <= k < ENTRIES * ENTRIES
  {
    k / ENTRIES in t.mid ==>
      mem[t.mid[k / ENTRIES]].pte[k % ENTRIES] == if k in t.low then Pte(t.low[k], TO_TABLE) else Zero
  }

  /** Level-0 entry of virtual page v. */
  ghost predicate LeafAt(mem: Mem, t: Tree, v: int)
    requires TablesPresent(mem, t) && 0 <= v < ENTRIES * ENTRIES * ENTRIES
  {
    v / ENTRIES in t.low ==>
      mem[t.low[v / ENTRIES]].pte[v % ENTRIES] == if v in t.leaf then t.leaf[v] else Zero
  }

  ghost predicate LeavesPresent(t: Tree) {
    forall v :: v in t.leaf ==> 0 <= v < MAXVPN && v / ENTRIES in t.low && t.leaf[v].Pte?
  }

  /** The three-level tree in memory denotes t. */
  ghost predicate Wf(mem: Mem, t: Tree) {
    && PagesDistinct(t) && TablesPresent(mem, t) && LeavesPresent(t)
    && (forall i {:trigger RootAt(mem, t, i)} :: 0 <= i < ENTRIES ==> RootAt(mem, t, i))
    && (forall k {:trigger MidAt(mem, t, k)} :: 0 <= k < ENTRIES * ENTRIES ==> MidAt(mem, t, k))
    && (forall v {:trigger LeafAt(mem, t, v)} :: 0 <= v < ENTRIES * ENTRIES * ENTRIES ==> LeafAt(mem, t, v))
  }

  /** The page-table pages. */
  ghost function TablePages(t: Tree): set<int> {
    {t.root} + t.mid.Values + t.low.Values
  }

  // ---------------------------------------------------------------- changing it

  function EmptyTable(): Page {
    Table(seq(512, i => Zero))
  }

  function SetEntry(mem: Mem, p: int, i: int, e: Pte): Mem
    requires p in mem && mem[p].Table? && 0 <= i < |mem[p].pte|
  {
    mem[p := Table(mem[p].pte[i := e])]
  }

  lemma ValuesAdd<K, V>(m: map<K, V>, k: K, v: V)
    requires k !in m
    ensures m[k := v].Values == m.Values + {v}
  {
    forall x | x in m.Values ensures x in m[k := v].Values {
      var j :| j in m && m[j] == x;
      assert m[k := v][j] == x;
    }
    assert m[k := v][k] == v;
  }

  lemma ValueKey<K, V>(m: map<K, V>, v: V) returns (k: K)
    requires v in m.Values
    ensures k in m && m[k] == v
  {
    k :| k in m && m[k] == v;
  }

  /** Memory that agrees on the page-table pages denotes the same map. */
  lemma WfOutside(mem: Mem, mem': Mem, t: Tree)
    requires Wf(mem, t) && forall p :: p in TablePages(t) && p in mem ==> p in mem' && mem'[p] == mem[p]
    ensures Wf(mem', t)
  {
    assert t.root in TablePages(t);
    assert forall i :: i in t.mid ==> t.mid[i] in TablePages(t);
    assert forall k :: k in t.low ==> t.low[k] in TablePages(t);
    assert TablesPresent(mem', t);
    forall i {:trigger RootAt(mem', t, i)} | 0 <= i < ENTRIES ensures RootAt(mem', t, i) { assert RootAt(mem, t, i); }
    forall k {:trigger MidAt(mem', t, k)} | 0 <= k < ENTRIES * ENTRIES ensures MidAt(mem', t, k) {
      assert MidAt(mem, t, k);
    }
    forall v {:trigger LeafAt(mem', t, v)} | 0 <= v < ENTRIES * ENTRIES * ENTRIES ensures LeafAt(mem', t, v) {
      assert LeafAt(mem, t, v);
    }
  }

  /** A new level-0 table is empty and the others are untouched, so every translation stays. */
  lemma LeavesStay(mem: Mem, t: Tree, mem': Mem, t': Tree)
    requires Wf(mem, t) && TablesPresent(mem', t') && t'.leaf == t.leaf
    requires forall k :: k in t.low ==> k in t'.low && t'.low[k] == t.low[k] && mem'[t.low[k]] == mem[t.low[k]]
    requires forall k :: k in t'.low && k !in t.low ==> mem'[t'.low[k]] == EmptyTable()
    ensures forall v {:trigger LeafAt(mem', t', v)} :: 0 <= v < ENTRIES * ENTRIES * ENTRIES ==> LeafAt(mem', t', v)
  {
    forall v {:trigger LeafAt(mem', t', v)} | 0 <= v < ENTRIES * ENTRIES * ENTRIES ensures LeafAt(mem', t', v) {
      assert LeafAt(mem, t, v);
    }
  }

  /** walk at level 2: a new level-1 table n for entry i. */
  lemma AddMid(mem: Mem, t: Tree, i: int, n: int)
    requires Wf(mem, t) && 0 <= i < ENTRIES && i !in t.mid && n !in TablePages(t)
    ensures var m1 := mem[n := EmptyTable()];
      var t' := t.(mid := t.mid[i := n]);
      && t.root in m1 && m1[t.root].Table? && |m1[t.root].pte| == ENTRIES
      && Wf(SetEntry(m1, t.root, i, Pte(n, TO_TABLE)), t') && TablePages(t') == TablePages(t) + {n}
  {
    var m1 := mem[n := EmptyTable()];
    var m2 := SetEntry(m1, t.root, i, Pte(n, TO_TABLE));
    var t' := t.(mid := t.mid[i := n]);
    AddMidShape(mem, t, i, n, m2);
    assert forall k :: k in t.low ==> t.low[k] in TablePages(t) && m2[t.low[k]] == mem[t.low[k]] by { LowPages(t); }
    assert forall j :: j in t.mid ==> t.mid[j] in TablePages(t) && m2[t.mid[j]] == mem[t.mid[j]] by { LowPages(t); }
    hide TablePages, PagesDistinct, LeavesPresent;
    forall j {:trigger RootAt(m2, t', j)} | 0 <= j < ENTRIES ensures RootAt(m2, t', j) { assert RootAt(mem, t, j); }
    forall k {:trigger MidAt(m2, t', k)} | 0 <= k < ENTRIES * ENTRIES ensures MidAt(m2, t', k) {
      assert MidAt(mem, t, k);
    }
    LeavesStay(mem, t, m2, t');
  }

  lemma LowPages(t: Tree)
    requires PagesDistinct(t)
    ensures forall k :: k in t.low ==> t.low[k] in TablePages(t) && t.low[k] != t.root
    ensures forall j :: j in t.mid ==> t.mid[j] in TablePages(t) && t.mid[j] != t.root
  {
    assert forall j :: j in t.mid ==> t.mid[j] in t.mid.Values;
    assert forall k :: k in t.low ==> t.low[k] in t.low.Values;
  }

  lemma AddMidShape(mem: Mem, t: Tree, i: int, n: int, mem': Mem)
    requires PagesDistinct(t) && TablesPresent(mem, t) && LeavesPresent(t)
    requires 0 <= i < ENTRIES && i !in t.mid && n !in TablePages(t) && IsTable(mem', n)
    requires forall p :: p in TablePages(t) && IsTable(mem, p) ==> IsTable(mem', p)
    ensures var t' := t.(mid := t.mid[i := n]);
      PagesDistinct(t') && TablesPresent(mem', t') && LeavesPresent(t') && TablePages(t') == TablePages(t) + {n}
  {
    ValuesAdd(t.mid, i, n);
    LowPages(t);
  }

  lemma AddLowShape(mem: Mem, t: Tree, k: int, n: int, mem': Mem)
    requires PagesDistinct(t) && TablesPresent(mem, t) && LeavesPresent(t)
    requires 0 <= k < ENTRIES * ENTRIES && k / ENTRIES in t.mid && k !in t.low
    requires n !in TablePages(t) && IsTable(mem', n)
    requires forall p :: p in TablePages(t) && IsTable(mem, p) ==> IsTable(mem', p)
    ensures var t' := t.(low := t.low[k := n]);
      PagesDistinct(t') && TablesPresent(mem', t') && LeavesPresent(t') && TablePages(t') == TablePages(t) + {n}
  {
    ValuesAdd(t.low, k, n);
    assert forall j :: j in t.mid ==> t.mid[j] in t.mid.Values;
    assert forall l :: l in t.low ==> t.low[l] in t.low.Values;
  }

  /** walk at level 1: a new level-0 table n for the 512 pages starting at k * 512. */
  lemma AddLow(mem: Mem, t: Tree, k: int, n: int)
    requires Wf(mem, t) && 0 <= k < ENTRIES * ENTRIES && k / ENTRIES in t.mid && k !in t.low && n !in TablePages(t)
    ensures var m1 := mem[n := EmptyTable()];
      var t' := t.(low := t.low[k := n]);
      var p := t.mid[k / ENTRIES];
      && p in m1 && m1[p].Table? && |m1[p].pte| == ENTRIES
      && Wf(SetEntry(m1, p, k % ENTRIES, Pte(n, TO_TABLE)), t') && TablePages(t') == TablePages(t) + {n}
  {
    var m1 := mem[n := EmptyTable()];
    var p := t.mid[k / ENTRIES];
    assert p in t.mid.Values;
    var m2 := SetEntry(m1, p, k % ENTRIES, Pte(n, TO_TABLE));
    var t' := t.(low := t.low[k := n]);
    AddLowShape(mem, t, k, n, m2);
    LowPages(t);
    assert forall l :: l in t.low ==> m2[t.low[l]] == mem[t.low[l]];
    assert forall j :: j in t.mid && j != k / ENTRIES ==> m2[t.mid[j]] == mem[t.mid[j]];
    hide TablePages, PagesDistinct, LeavesPresent;
    forall j {:trigger RootAt(m2, t', j)} | 0 <= j < ENTRIES ensures RootAt(m2, t', j) { assert RootAt(mem, t, j); }
    MidsChange(mem, t, m2, t', k, n);
    LeavesStay(mem, t, m2, t');
  }

  /** The level-1 entry for k, and no other, now points to n. */
  lemma MidsChange(mem: Mem, t: Tree, mem': Mem, t': Tree, k: int, n: int)
    requires Wf(mem, t) && TablesPresent(mem', t') && 0 <= k < ENTRIES * ENTRIES && k / ENTRIES in t.mid && k !in t.low
    requires t'.mid == t.mid && t'.low == t.low[k := n]
    requires forall i :: i in t.mid && i != k / ENTRIES ==> mem'[t.mid[i]] == mem[t.mid[i]]
    requires mem'[t.mid[k / ENTRIES]].pte == mem[t.mid[k / ENTRIES]].pte[k % ENTRIES := Pte(n, TO_TABLE)]
    ensures forall l {:trigger MidAt(mem', t', l)} :: 0 <= l < ENTRIES * ENTRIES ==> MidAt(mem', t', l)
  {
    forall l {:trigger MidAt(mem', t', l)} | 0 <= l < ENTRIES * ENTRIES ensures MidAt(mem', t', l) {
      assert MidAt(mem, t, l);
    }
  }

  /** Writing the level-0 entry of virtual page v changes the translation of v and of nothing else. */
  lemma SetLeaf(mem: Mem, t: Tree, v: int, e: Pte)
    requires Wf(mem, t) && 0 <= v < MAXVPN && v / ENTRIES in t.low
    ensures var t' := t.(leaf := if e.Pte? then t.leaf[v := e] else t.leaf - {v});
      Wf(SetEntry(mem, t.low[v / ENTRIES], v % ENTRIES, e), t') && TablePages(t') == TablePages(t)
  {
    var p := t.low[v / ENTRIES];
    var m2 := SetEntry(mem, p, v % ENTRIES, e);
    var t' := t.(leaf := if e.Pte? then t.leaf[v := e] else t.leaf - {v});
    assert TablesPresent(m2, t');
    forall j {:trigger RootAt(m2, t', j)} | 0 <= j < ENTRIES ensures RootAt(m2, t', j) { assert RootAt(mem, t, j); }
    forall k {:trigger MidAt(m2, t', k)} | 0 <= k < ENTRIES * ENTRIES ensures MidAt(m2, t', k) {
      assert MidAt(mem, t, k);
    }
    forall w {:trigger LeafAt(m2, t', w)} | 0 <= w < ENTRIES * ENTRIES * ENTRIES ensures LeafAt(m2, t', w) {
      assert LeafAt(mem, t, w);
    }
  }
}
