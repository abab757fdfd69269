/**
  freewalk (vm.c): giving every page of a page table back to the allocator.

  A node of the tree is named by its level and by the number of the block of
  virtual pages it covers, which is the same number shifted by nine bits per level.
 */
module FreeTree {
  import opened Sv39
  import opened Vm

  ghost predicate Has(t: Tree, level: int, key: int) {
    if level == 2 then key == 0 else if level == 1 then key in t.mid else level == 0 && key in t.low
  }

  ghost function Node(t: Tree, level: int, key: int): int
    requires Has(t, level, key)
  {
    if level == 2 then t.root else if level == 1 then t.mid[key] else t.low[key]
  }

  /** Node (l, c) lies in the subtree of node (level, key). */
  ghost predicate Under(level: int, key: int, l: int, c: int) {
    if l == level then c == key else if l == level - 1 then c / 512 == key else l == 0 && level == 2
  }

  /** Entry i of node (l, c) of a tree without leaves. */
  ghost function Expected(t: Tree, l: int, c: int, i: int): Pte {
    if l > 0 && Has(t, l - 1, c * 512 + i) then Pte(Node(t, l - 1, c * 512 + i), TO_TABLE) else Zero
  }

  ghost predicate NodeOk(mem: Mem, t: Tree, l: int, c: int)
    requires Has(t, l, c)
  {
    && IsTable(mem, Node(t, l, c))
    && (forall i :: 0 <= i < 512 ==> mem[Node(t, l, c)].pte[i] == Expected(t, l, c, i))
  }

  ghost predicate SubOk(mem: Mem, t: Tree, level: int, key: int) {
    forall l, c {:trigger NodeOk(mem, t, l, c)} :: Has(t, l, c) && Under(level, key, l, c) && l <= level ==>
      NodeOk(mem, t, l, c)
  }

  /** The shape of a tree: parents exist, and no page serves twice. */
  ghost predicate Shape(t: Tree) {
    && PagesDistinct(t)
    && (forall m :: m in t.mid ==> 0 <= m < 512)
    && (forall c :: c in t.low ==> 0 <= c < 512 * 512 && c / 512 in t.mid)
  }

  /** The pages of a subtree. */
  ghost function Pages(t: Tree, level: int, key: int): set<int> {
    (if level == 2 then {t.root} else {})
    + (set m | m in t.mid && level >= 1 && Under(level, key, 1, m) :: t.mid[m])
    + (set c | c in t.low && Under(level, key, 0, c) :: t.low[c])
  }

  /** The pages of the subtrees hanging from the first i entries of a node. */
  ghost function ChildPages(t: Tree, level: int, key: int, i: int): set<int> {
    (set m | m in t.mid && level == 2 && m < i :: t.mid[m])
    + (set c | c in t.low && ((level == 2 && c / 512 < i) || (level == 1 && c / 512 == key && c % 512 < i)) :: t.low[c])
  }

  lemma NodeInPages(t: Tree, level: int, key: int, l: int, c: int)
    requires Has(t, l, c) && Under(level, key, l, c) && 0 <= l <= level <= 2
    ensures Node(t, l, c) in Pages(t, level, key)
  {
  }

  lemma AllPages(t: Tree)
    requires Shape(t)
    ensures Pages(t, 2, 0) == TablePages(t)
  {
    forall p | p in TablePages(t) ensures p in Pages(t, 2, 0) {
      if p in t.mid.Values { var m := ValueKey(t.mid, p); }
      else if p in t.low.Values { var c := ValueKey(t.low, p); }
    }
  }

  /** Going past entry i accounts for the whole subtree that hangs there. */
  lemma NextChild(t: Tree, level: int, key: int, i: int)
    requires Shape(t) && 0 <= level <= 2 && Has(t, level, key) && 0 <= i < 512
    ensures var ck := key * 512 + i;
      && (level > 0 && Has(t, level - 1, ck) ==>
        ChildPages(t, level, key, i + 1) == ChildPages(t, level, key, i) + Pages(t, level - 1, ck))
      && (!(level > 0 && Has(t, level - 1, ck)) ==> ChildPages(t, level, key, i + 1) == ChildPages(t, level, key, i))
  {
  }

  /** A node, its earlier subtrees and the subtree at entry i are all disjoint. */
  lemma ChildApart(t: Tree, level: int, key: int, i: int)
    requires Shape(t) && 1 <= level <= 2 && Has(t, level, key) && 0 <= i < 512 && Has(t, level - 1, key * 512 + i)
    ensures Pages(t, level - 1, key * 512 + i) !! ChildPages(t, level, key, i) + {Node(t, level, key)}
  {
  }

  lemma WholeNode(t: Tree, level: int, key: int)
    requires Shape(t) && 0 <= level <= 2 && Has(t, level, key)
    ensures Pages(t, level, key) == ChildPages(t, level, key, 512) + {Node(t, level, key)}
    ensures Node(t, level, key) !in ChildPages(t, level, key, 512)
    ensures ChildPages(t, level, key, 0) == {}
  {
  }

  /** The subtree at entry i is untouched while earlier ones are freed. */
  lemma ChildOk(mem: Mem, mem': Mem, t: Tree, level: int, key: int, i: int)
    requires Shape(t) && 1 <= level <= 2 && Has(t, level, key) && 0 <= i < 512 && Has(t, level - 1, key * 512 + i)
    requires SubOk(mem, t, level, key) && SameOutside(mem, mem', ChildPages(t, level, key, i) + {Node(t, level, key)})
    ensures SubOk(mem', t, level - 1, key * 512 + i)
  {
    var ck := key * 512 + i;
    ChildApart(t, level, key, i);
    hide Shape, Pages, ChildPages;
    forall l, c {:trigger NodeOk(mem', t, l, c)} | Has(t, l, c) && Under(level - 1, ck, l, c) && l <= level - 1
      ensures NodeOk(mem', t, l, c)
    {
      NodeInPages(t, level - 1, ck, l, c);
      assert Under(level, key, l, c);
      assert NodeOk(mem, t, l, c);
      assert Node(t, l, c) in Pages(t, level - 1, ck);
    }
  }

  /** The pages of a subtree are RAM in use. */
  ghost predicate InUse(free: seq<int>, end: int, s: set<int>) {
    forall p :: p in s ==> end <= p < PHYSTOP && p !in free
  }

  /** What freewalk has done after i entries of node (level, key), at page p. */
  ghost predicate Partly(m: Mem, f: seq<int>, m': Mem, f': seq<int>, t: Tree, level: int, key: int, i: int, p: int) {
    && FreeSet(f') == FreeSet(f) + ChildPages(t, level, key, i)
    && SameOutside(m, m', ChildPages(t, level, key, i) + {p})
    && IsTable(m, p) && IsTable(m', p)
    && (forall j :: 0 <= i <= j < 512 ==> m'[p].pte[j] == m[p].pte[j])
  }

  lemma ReadyForChild(m: Mem, f: seq<int>, end: int, m': Mem, f': seq<int>, t: Tree, level: int, key: int, i: int)
    requires Shape(t) && 1 <= level <= 2 && Has(t, level, key) && 0 <= i < 512 && Has(t, level - 1, key * 512 + i)
    requires Partly(m, f, m', f', t, level, key, i, Node(t, level, key)) && InUse(f, end, Pages(t, level, key))
    ensures InUse(f', end, Pages(t, level - 1, key * 512 + i))
  {
    ChildApart(t, level, key, i);
    assert Pages(t, level - 1, key * 512 + i) <= Pages(t, level, key) by { ChildInside(t, level, key, i); }
    hide Shape, Pages, ChildPages;
    forall p | p in Pages(t, level - 1, key * 512 + i) ensures p !in f' {
      assert p !in FreeSet(f);
      assert p !in FreeSet(f');
    }
  }

  lemma ChildInside(t: Tree, level: int, key: int, i: int)
    requires Shape(t) && 1 <= level <= 2 && Has(t, level, key) && 0 <= i < 512 && Has(t, level - 1, key * 512 + i)
    ensures Pages(t, level - 1, key * 512 + i) <= Pages(t, level, key)
  {
  }

  /** Freeing the subtree at entry i, or finding none there, moves on to the next entry. */
  lemma PartlyNext(m: Mem, f: seq<int>, m1: Mem, f1: seq<int>, m2: Mem, f2: seq<int>, t: Tree, level: int,
      key: int, i: int)
    requires Shape(t) && 1 <= level <= 2 && Has(t, level, key) && 0 <= i < 512 && Has(t, level - 1, key * 512 + i)
    requires Partly(m, f, m1, f1, t, level, key, i, Node(t, level, key))
    requires FreeSet(f2) == FreeSet(f1) + Pages(t, level - 1, key * 512 + i)
    requires SameOutside(m1, m2, Pages(t, level - 1, key * 512 + i))
    ensures IsTable(m2, Node(t, level, key))
    ensures Partly(m, f, SetEntry(m2, Node(t, level, key), i, Zero), f2, t, level, key, i + 1, Node(t, level, key))
  {
    NextChild(t, level, key, i);
    ChildApart(t, level, key, i);
    hide Shape, Pages, ChildPages, Node;
    NextUnion(FreeSet(f), ChildPages(t, level, key, i), Pages(t, level - 1, key * 512 + i));
    NextOutside(m, m1, m2, ChildPages(t, level, key, i), Pages(t, level - 1, key * 512 + i), Node(t, level, key), i);
  }

  lemma NextUnion(f: set<int>, c: set<int>, q: set<int>)
    ensures f + c + q == f + (c + q)
  {
  }

  /** Two changes, to the pages c and then q, and one to entry i of the table p outside q. */
  lemma NextOutside(m: Mem, m1: Mem, m2: Mem, c: set<int>, q: set<int>, p: int, i: int)
    requires SameOutside(m, m1, c + {p}) && SameOutside(m1, m2, q) && IsTable(m1, p) && p !in q && 0 <= i < 512
    ensures IsTable(m2, p) && m2[p] == m1[p]
    ensures SameOutside(m, SetEntry(m2, p, i, Zero), c + q + {p}) && IsTable(SetEntry(m2, p, i, Zero), p)
    ensures forall j :: 0 <= j < 512 && j != i ==> SetEntry(m2, p, i, Zero)[p].pte[j] == m1[p].pte[j]
  {
  }

  /** freewalk: every page of the subtree is free, and no other page has changed. */
  method FreeWalk(k: Kernel, p: int, ghost level: int, ghost key: int, ghost t: Tree)
    requires Shape(t) && 0 <= level <= 2 && Has(t, level, key) && p == Node(t, level, key)
    requires FreeOk(k.mem, k.free, k.end) && SubOk(k.mem, t, level, key) && InUse(k.free, k.end, Pages(t, level, key))
    modifies k
    ensures FreeOk(k.mem, k.free, k.end)
    ensures FreeSet(k.free) == FreeSet(old(k.free)) + Pages(t, level, key)
    ensures SameOutside(old(k.mem), k.mem, Pages(t, level, key))
    decreases level
  {
    hide Shape, Pages, ChildPages, SubOk, FreeOk, InUse, Has, Node, Partly;
    WholeNode(t, level, key);
    NodeAt(k.mem, t, level, key);
    PartlyNone(k.mem, k.free, t, level, key, p);
    var i := 0;
    while i < 512
      invariant 0 <= i <= 512 && FreeOk(k.mem, k.free, k.end)
      invariant Partly(old(k.mem), old(k.free), k.mem, k.free, t, level, key, i, p)
    {
      PartlyAt(old(k.mem), old(k.free), k.mem, k.free, t, level, key, i, p);
      var pte := k.mem[p].pte[i];
      if pte.Pte? && !pte.flags.r && !pte.flags.w && !pte.flags.x {
        ghost var m1, f1 := k.mem, k.free;
        ReadyForChild(old(k.mem), old(k.free), k.end, m1, f1, t, level, key, i);
        PartlyOk(old(k.mem), old(k.free), m1, f1, t, level, key, i);
        FreeWalk(k, pte.ppn, level - 1, key * 512 + i, t);
        PartlyNext(old(k.mem), old(k.free), m1, f1, k.mem, k.free, t, level, key, i);
        StaysFree(k.mem, k.free, k.end, p, i, Zero);
        k.mem := SetEntry(k.mem, p, i, Zero);
      } else {
        PartlySkip(old(k.mem), old(k.free), k.mem, k.free, t, level, key, i);
      }
      i := i + 1;
    }
    LastPage(old(k.mem), old(k.free), k.end, k.mem, k.free, t, level, key);
    k.Kfree(p);
  }

  lemma NodeAt(mem: Mem, t: Tree, level: int, key: int)
    requires SubOk(mem, t, level, key) && 0 <= level <= 2 && Has(t, level, key)
    ensures IsTable(mem, Node(t, level, key))
    ensures forall i :: 0 <= i < 512 ==> mem[Node(t, level, key)].pte[i] == Expected(t, level, key, i)
  {
    assert NodeOk(mem, t, level, key);
  }

  lemma PartlyNone(mem: Mem, free: seq<int>, t: Tree, level: int, key: int, p: int)
    requires IsTable(mem, p) && ChildPages(t, level, key, 0) == {}
    ensures Partly(mem, free, mem, free, t, level, key, 0, p)
  {
  }

  /** The panic "freewalk: leaf" cannot happen: an entry not yet visited is a pointer to a node, or zero. */
  lemma PartlyAt(m: Mem, f: seq<int>, m': Mem, f': seq<int>, t: Tree, level: int, key: int, i: int, p: int)
    requires Partly(m, f, m', f', t, level, key, i, p) && 0 <= i < 512 && Has(t, level, key) && p == Node(t, level, key)
    requires forall j :: 0 <= j < 512 ==> m[p].pte[j] == Expected(t, level, key, j)
    ensures IsTable(m', p) && m'[p].pte[i] == Expected(t, level, key, i)
    ensures m'[p].pte[i].Pte? ==> level > 0 && Has(t, level - 1, key * 512 + i) && m'[p].pte[i].flags == TO_TABLE
    ensures m'[p].pte[i].Pte? ==> m'[p].pte[i].ppn == Node(t, level - 1, key * 512 + i)
    ensures m'[p].pte[i].Zero? ==> !(level > 0 && Has(t, level - 1, key * 512 + i))
  {
  }

  lemma PartlyOk(m: Mem, f: seq<int>, m': Mem, f': seq<int>, t: Tree, level: int, key: int, i: int)
    requires Shape(t) && 1 <= level <= 2 && Has(t, level, key) && 0 <= i < 512 && Has(t, level - 1, key * 512 + i)
    requires SubOk(m, t, level, key) && Partly(m, f, m', f', t, level, key, i, Node(t, level, key))
    ensures SubOk(m', t, level - 1, key * 512 + i)
  {
    ChildOk(m, m', t, level, key, i);
  }

  lemma PartlySkip(m: Mem, f: seq<int>, m': Mem, f': seq<int>, t: Tree, level: int, key: int, i: int)
    requires Shape(t) && 0 <= level <= 2 && Has(t, level, key) && 0 <= i < 512
    requires !(level > 0 && Has(t, level - 1, key * 512 + i))
    requires Partly(m, f, m', f', t, level, key, i, Node(t, level, key))
    ensures Partly(m, f, m', f', t, level, key, i + 1, Node(t, level, key))
  {
    NextChild(t, level, key, i);
    hide Shape, ChildPages;
  }

  lemma StaysFree(mem: Mem, free: seq<int>, end: int, p: int, i: int, e: Pte)
    requires FreeOk(mem, free, end) && IsTable(mem, p) && 0 <= i < 512
    ensures FreeOk(SetEntry(mem, p, i, e), free, end)
  {
  }

  lemma LastPage(m: Mem, f: seq<int>, end: int, m': Mem, f': seq<int>, t: Tree, level: int, key: int)
    requires Shape(t) && 0 <= level <= 2 && Has(t, level, key) && InUse(f, end, Pages(t, level, key))
    requires Partly(m, f, m', f', t, level, key, 512, Node(t, level, key))
    ensures var p := Node(t, level, key);
      && end <= p < PHYSTOP && p in m' && p !in f'
      && FreeSet(f') + {p} == FreeSet(f) + Pages(t, level, key)
      && SameOutside(m, m', Pages(t, level, key)) && p in Pages(t, level, key)
  {
    WholeNode(t, level, key);
    hide Shape, Pages, ChildPages;
    assert Node(t, level, key) !in FreeSet(f');
  }
}
