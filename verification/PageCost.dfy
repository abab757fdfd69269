/**
  How many physical pages it takes to map virtual pages: the page-table pages that are not
  there yet, and the mapped pages themselves.
 */
module PageCost {
  import opened Sv39

  /** The number of the level-0 table over virtual page v, and of the level-1 table over that. */
  function LowOf(v: int): int { v / ENTRIES }

  function MidOf(v: int): int { v / ENTRIES / ENTRIES }

  /** The level-0 tables over the virtual pages vs. */
  ghost function Lows(vs: set<int>): set<int> {
    set v | v in vs :: LowOf(v)
  }

  /** The level-1 tables over them. */
  ghost function Mids(vs: set<int>): set<int> {
    set v | v in vs :: MidOf(v)
  }

  /** The page-table pages that mapping vs adds to the tables mid and low. */
  ghost function Lacking(mid: set<int>, low: set<int>, vs: set<int>): nat {
    |Mids(vs) - mid| + |Lows(vs) - low|
  }

  /** The pages that mapping a page of its own at each of vs takes from the free list. */
  ghost function Cost(mid: set<int>, low: set<int>, vs: set<int>): nat {
    |vs| + Lacking(mid, low, vs)
  }

  ghost function Range(lo: int, hi: int): set<int>
    decreases hi - lo
  {
    if lo >= hi then {} else {lo} + Range(lo + 1, hi)
  }

  lemma {:induction false} InRange(lo: int, hi: int, v: int)
    ensures v in Range(lo, hi) <==> lo <= v < hi
    decreases hi - lo
  {
    if lo < hi { InRange(lo + 1, hi, v); }
  }

  /** t' has t's tables and those over virtual page v. */
  ghost predicate Covers(t: Tree, t': Tree, v: int) {
    t'.mid.Keys == t.mid.Keys + {MidOf(v)} && t'.low.Keys == t.low.Keys + {LowOf(v)}
  }

  lemma MapsOne(s: set<int>, a: int, rest: set<int>)
    ensures |({a} + rest) - s| == |{a} - s| + |rest - (s + {a})|
  {
    assert ({a} + rest) - s == ({a} - s) + (rest - (s + {a}));
  }

  lemma LacksIn(s: set<int>, a: int)
    ensures |{a} - s| == if a in s then 0 else 1
  {
    assert {a} - s == if a in s then {} else {a};
  }

  lemma LacksOne(mid: set<int>, low: set<int>, v: int)
    ensures Mids({v}) == {MidOf(v)} && Lows({v}) == {LowOf(v)}
    ensures Lacking(mid, low, {v}) ==
      (if MidOf(v) in mid then 0 else 1) + (if LowOf(v) in low then 0 else 1)
  {
    hide MidOf, LowOf;
    assert Mids({v}) == {MidOf(v)} && Lows({v}) == {LowOf(v)};
    LacksIn(mid, MidOf(v));
    LacksIn(low, LowOf(v));
  }

  lemma Unions(v: int, rest: set<int>)
    ensures Mids({v} + rest) == {MidOf(v)} + Mids(rest)
    ensures Lows({v} + rest) == {LowOf(v)} + Lows(rest)
  {
    assert v in {v} + rest;
    forall w | w in rest ensures LowOf(w) in Lows({v} + rest) && MidOf(w) in Mids({v} + rest) {
      assert w in {v} + rest;
    }
  }

  /** Mapping one page first and the rest afterwards costs the same as mapping them all. */
  lemma CostSplits(mid: set<int>, low: set<int>, v: int, rest: set<int>)
    requires v !in rest
    ensures var m, l := mid + {MidOf(v)}, low + {LowOf(v)};
      && Lacking(mid, low, {v} + rest) == Lacking(mid, low, {v}) + Lacking(m, l, rest)
      && Cost(mid, low, {v} + rest) == Cost(mid, low, {v}) + Cost(m, l, rest)
  {
    Unions(v, rest);
    LacksOne(mid, low, v);
    MapsOne(mid, MidOf(v), Mids(rest));
    MapsOne(low, LowOf(v), Lows(rest));
    assert |{v} + rest| == 1 + |rest|;
  }

  lemma {:induction false} RangeSize(lo: int, hi: int)
    requires lo <= hi
    ensures |Range(lo, hi)| == hi - lo
    decreases hi - lo
  {
    if lo < hi {
      InRange(lo + 1, hi, lo);
      RangeSize(lo + 1, hi);
    }
  }

  lemma AnyOf<T>(vs: set<T>) returns (v: T)
    requires vs != {}
    ensures v in vs
  {
    v :| v in vs;
  }

  /** A page costs at most three: two levels of tables and itself. */
  lemma {:induction false} CostBound(mid: set<int>, low: set<int>, vs: set<int>)
    ensures |vs| <= Cost(mid, low, vs) <= 3 * |vs|
    decreases vs
  {
    if vs == {} {
      assert Mids(vs) == {} && Lows(vs) == {};
    } else {
      var v := AnyOf(vs);
      var rest := vs - {v};
      assert vs == {v} + rest;
      CostSplits(mid, low, v, rest);
      LacksOne(mid, low, v);
      CostBound(mid + {MidOf(v)}, low + {LowOf(v)}, rest);
    }
  }
}
