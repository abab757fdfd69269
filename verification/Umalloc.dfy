/**
  malloc, free and morecore (umalloc.c), in place on the headers.

  Addresses count headers (16 bytes).  A header is its ptr and size fields; the free
  blocks form a circular list in address order through ptr, starting anywhere at freep.
 */
module Umalloc {
  import opened FreeBlocks

  // ---------------------------------------------------------------- sizes

  /** Units for nbytes of payload and a header; computed in 64 bits, so it does not wrap. */
  function Units(nbytes: int): (n: int)
    requires 0 <= nbytes < 0x1_0000_0000
    ensures 16 * (n - 1) >= nbytes && 16 * (n - 2) < nbytes && 1 <= n <= 0x1000_0001
  {
    (nbytes + 15) / 16 + 1
  }

  /** The conversion of a 64-bit value to sbrk's int parameter. */
  function ToInt(x: int): (r: int)
    ensures -0x8000_0000 <= r < 0x8000_0000 && (x - r) % 0x1_0000_0000 == 0
  {
    (x + 0x8000_0000) % 0x1_0000_0000 - 0x8000_0000
  }

  /** What morecore asks the kernel for, in units, when it needs nu of them. */
  function Asked(nu: int): int {
    ToInt((if nu < 4096 then 4096 else nu) * 16) / 16
  }

  /** morecore asks for as much as it goes on to use just if the request is below 2^27 units. */
  lemma AskedIsEnough(nu: int)
    requires 1 <= nu <= 0x1000_0001
    ensures Asked(nu) >= nu <==> nu < 0x800_0000
  {
  }

  /** The largest malloc that the conversion does not spoil. */
  lemma LargestRequest(nbytes: int)
    requires 0 <= nbytes < 0x1_0000_0000
    ensures Asked(Units(nbytes)) >= Units(nbytes) <==> nbytes <= 0x7fff_ffe0
  {
    AskedIsEnough(Units(nbytes));
  }

  // ---------------------------------------------------------------- the kernel's side of sbrk

  /** growproc refuses only to grow. */
  predicate Refused(nu: int, grant: bool) {
    Asked(nu) > 0 && !grant
  }

  /** The break after growproc: where brk + d wraps below 0, uvmdealloc leaves it alone. */
  function BrkAfter(brk: int, d: int): int {
    if brk + d < 0 then brk else brk + d
  }

  /** The units granted once the break has moved; a lower break takes units back. */
  ghost function GrantedAfter(granted: iset<int>, brk: int, brk': int): iset<int> {
    if brk <= brk' then granted + UnitsOf(Block(brk, brk' - brk)) else iset u | u in granted && u < brk'
  }

  /** morecore's store at the old break faults: no page (256 units) below the new break holds it. */
  predicate Traps(brk: int, nu: int) {
    (BrkAfter(brk, Asked(nu)) + 255) / 256 * 256 <= brk
  }

  /**
    No store faults within the bound, nor at the largest request.  Between them, a break that stays
    is a fault just at a page boundary, and one that goes down by a page or more is one anyway.
   */
  lemma TrapsWhen(brk: int, nu: int)
    requires brk >= 0 && 1 <= nu <= 0x1000_0001
    ensures nu < 0x800_0000 || nu == 0x1000_0001 ==> !Traps(brk, nu)
    ensures 0x800_0000 <= nu <= 0x1000_0000 && BrkAfter(brk, Asked(nu)) == brk ==> (Traps(brk, nu) <==> brk % 256 == 0)
    ensures 0x800_0000 <= nu <= 0x0fff_ff00 && BrkAfter(brk, Asked(nu)) != brk ==> Traps(brk, nu)
  {
    if nu < 0x800_0000 { AskedIsAll(nu); } else if nu < 0x1000_0000 { assert Asked(nu) == nu - 0x1000_0000; }
  }

  // ---------------------------------------------------------------- the ring

  function Next(i: int, n: int): int {
    if i + 1 == n then 0 else i + 1
  }

  /** Steps from f to i around a ring of n. */
  function Dist(f: int, i: int, n: int): int {
    if i >= f then i - f else i - f + n
  }

  ghost predicate LinkAt(ptr: map<int, int>, size: map<int, int>, list: seq<Block>, i: int)
    requires 0 <= i < |list|
  {
    && list[i].at in ptr && ptr[list[i].at] == list[Next(i, |list|)].at
    && list[i].at in size && size[list[i].at] == list[i].len
  }

  /** The headers in memory form the ring of list. */
  ghost predicate Linked(ptr: map<int, int>, size: map<int, int>, list: seq<Block>) {
    forall i {:trigger LinkAt(ptr, size, list, i)} :: 0 <= i < |list| ==> LinkAt(ptr, size, list, i)
  }

  // ---------------------------------------------------------------- live blocks

  ghost predicate LiveAt(live: map<int, int>, size: map<int, int>, base: int, brk: int, a: int) {
    a in live ==> a in size && size[a] == live[a] && live[a] > 0 && base < a && a + live[a] <= brk
  }

  /** Live blocks are in the heap and disjoint from each other. */
  ghost predicate LiveOk(live: map<int, int>, size: map<int, int>, base: int, brk: int) {
    && (forall a {:trigger LiveAt(live, size, base, brk, a)} :: a in live ==> LiveAt(live, size, base, brk, a))
    && (forall a, b :: a in live && b in live && a < b ==> a + live[a] <= b)
  }

  /** Free blocks are in the heap and disjoint from the live ones. */
  ghost predicate Apart(list: seq<Block>, live: map<int, int>, brk: int) {
    && (forall i :: 0 <= i < |list| ==> list[i].at + list[i].len <= brk)
    && (forall i, a :: 0 <= i < |list| && a in live ==> a + live[a] <= list[i].at || list[i].at + list[i].len <= a)
  }

  ghost predicate InLive(live: map<int, int>, u: int) {
    exists a :: a in live && a <= u < a + live[a]
  }

  ghost function UnitsOf(b: Block): iset<int> {
    iset u | Covers(b, u)
  }

  /** Every unit obtained from the kernel is free or live, and there are no others. */
  ghost predicate Conserved(list: seq<Block>, live: map<int, int>, granted: iset<int>) {
    forall u :: u in granted <==> InList(list, u) || InLive(live, u)
  }

  /** Where a live block belongs in the free list. */
  ghost predicate Spot(list: seq<Block>, i: int, a: int) {
    0 <= i < |list| && list[i].at < a && (i + 1 < |list| ==> a < list[i + 1].at)
  }

  lemma SpotExists(list: seq<Block>, base: int, a: int) returns (i: int)
    requires Good(list, base) && base < a && forall j :: 0 <= j < |list| ==> list[j].at != a
    ensures Spot(list, i, a)
  {
    i := 0;
    while i + 1 < |list| && list[i + 1].at < a
      invariant 0 <= i < |list| && list[i].at < a
    {
      i := i + 1;
    }
  }

  /** Block b does not overlap the free list. */
  ghost predicate Clear(list: seq<Block>, b: Block) {
    forall i :: 0 <= i < |list| ==> b.at + b.len <= list[i].at || list[i].at + list[i].len <= b.at
  }

  lemma ClearFits(list: seq<Block>, base: int, i: int, b: Block)
    requires Good(list, base) && Clear(list, b) && b.len > 0 && base < b.at && Spot(list, i, b.at)
    ensures Fits(list, i, b)
  {
  }

  // ---------------------------------------------------------------- the links after freeing and taking

  lemma LinkOf(ptr: map<int, int>, size: map<int, int>, list: seq<Block>, i: int)
    requires Linked(ptr, size, list) && 0 <= i < |list|
    ensures LinkAt(ptr, size, list, i)
  {
  }

  ghost predicate Asc(list: seq<Block>) {
    forall i, j :: 0 <= i < j < |list| ==> list[i].at < list[j].at
  }

  lemma GoodAsc(list: seq<Block>, base: int)
    requires Good(list, base)
    ensures Asc(list)
  {
    forall i, j | 0 <= i < j < |list| ensures list[i].at < list[j].at {
      assert list[i].at + list[i].len < list[j].at;
    }
  }

  /** Only the headers of listed blocks matter. */
  lemma LinksAgree(ptr: map<int, int>, size: map<int, int>, list: seq<Block>, ptr': map<int, int>, size': map<int, int>)
    requires Linked(ptr, size, list)
    requires forall i :: 0 <= i < |list| && list[i].at in ptr && list[i].at in size ==>
      && list[i].at in ptr' && list[i].at in size'
      && ptr'[list[i].at] == ptr[list[i].at] && size'[list[i].at] == size[list[i].at]
    ensures Linked(ptr', size', list)
  {
    forall i {:trigger LinkAt(ptr', size', list, i)} | 0 <= i < |list| ensures LinkAt(ptr', size', list, i) {
      LinkOf(ptr, size, list, i);
    }
  }

  function Without(list: seq<Block>, i: int): seq<Block>
    requires 0 <= i < |list|
  {
    list[..i] + list[i + 1..]
  }

  function With(list: seq<Block>, i: int, b: Block): seq<Block>
    requires 0 <= i < |list|
  {
    list[..i + 1] + [b] + list[i + 1..]
  }

  /** Unlinking block i behind its predecessor. */
  lemma LinksWithout(ptr: map<int, int>, size: map<int, int>, list: seq<Block>, i: int)
    requires Asc(list) && Linked(ptr, size, list) && 0 < i < |list|
    ensures Linked(ptr[list[i - 1].at := list[Next(i, |list|)].at], size, Without(list, i)) && Asc(Without(list, i))
  {
    var l, ptr' := Without(list, i), ptr[list[i - 1].at := list[Next(i, |list|)].at];
    assert forall k :: 0 <= k < i ==> l[k] == list[k];
    assert forall k :: i <= k < |l| ==> l[k] == list[k + 1];
    forall k {:trigger LinkAt(ptr', size, l, k)} | 0 <= k < |l| ensures LinkAt(ptr', size, l, k) {
      hide Without, Linked;
      LinkOf(ptr, size, list, if k < i then k else k + 1);
    }
  }

  /** Linking b behind block i. */
  lemma LinksWith(ptr: map<int, int>, size: map<int, int>, list: seq<Block>, i: int, b: Block)
    requires Asc(list) && Linked(ptr, size, list) && 0 <= i < |list| && list[i].at < b.at
    requires i + 1 < |list| ==> b.at < list[i + 1].at
    ensures Linked(ptr[b.at := list[Next(i, |list|)].at][list[i].at := b.at], size[b.at := b.len], With(list, i, b))
    ensures Asc(With(list, i, b))
  {
    var l, size' := With(list, i, b), size[b.at := b.len];
    var ptr' := ptr[b.at := list[Next(i, |list|)].at][list[i].at := b.at];
    WithMisses(list, i, b);
    WithAsc(list, i, b);
    forall k {:trigger LinkAt(ptr', size', l, k)} | 0 <= k < |l| ensures LinkAt(ptr', size', l, k) {
      LinkWith(ptr, size, list, i, b, k);
    }
  }

  lemma WithMisses(list: seq<Block>, i: int, b: Block)
    requires Asc(list) && 0 <= i < |list| && list[i].at < b.at && (i + 1 < |list| ==> b.at < list[i + 1].at)
    ensures forall k :: 0 <= k < |list| ==> list[k].at != b.at
  {
    forall k | 0 <= k < |list| ensures list[k].at != b.at {
      if k > i + 1 { assert list[i + 1].at < list[k].at; }
      if k < i { assert list[k].at < list[i].at; }
    }
  }

  lemma LinkWith(ptr: map<int, int>, size: map<int, int>, list: seq<Block>, i: int, b: Block, k: int)
    requires Asc(list) && Linked(ptr, size, list) && 0 <= i < |list| && forall j :: 0 <= j < |list| ==>
      list[j].at != b.at
    requires 0 <= k <= |list|
    ensures LinkAt(ptr[b.at := list[Next(i, |list|)].at][list[i].at := b.at], size[b.at := b.len], With(list, i, b), k)
  {
    var l := With(list, i, b);
    assert forall j :: 0 <= j <= i ==> l[j] == list[j];
    assert l[i + 1] == b;
    assert forall j :: i + 2 <= j < |l| ==> l[j] == list[j - 1];
    hide With, Linked;
    if k != i + 1 { LinkOf(ptr, size, list, if k <= i then k else k - 1); }
  }

  lemma WithAsc(list: seq<Block>, i: int, b: Block)
    requires Asc(list) && 0 <= i < |list| && list[i].at < b.at && (i + 1 < |list| ==> b.at < list[i + 1].at)
    ensures Asc(With(list, i, b))
  {
    var l := With(list, i, b);
    forall j, k | 0 <= j < k < |l| ensures l[j].at < l[k].at {
      if k <= i { assert l[j] == list[j] && l[k] == list[k]; }
      else if k == i + 1 { assert l[j] == list[j] && l[k] == b; }
      else if j == i + 1 { assert l[j] == b && l[k] == list[k - 1]; }
      else if j > i + 1 { assert l[j] == list[j - 1] && l[k] == list[k - 1]; }
      else { assert l[j] == list[j] && l[k] == list[k - 1]; }
    }
  }

  /** Changing the size of block i. */
  lemma LinksResize(ptr: map<int, int>, size: map<int, int>, list: seq<Block>, i: int, n: int)
    requires Asc(list) && Linked(ptr, size, list) && 0 <= i < |list|
    ensures Linked(ptr, size[list[i].at := n], list[i := Block(list[i].at, n)]) && Asc(list[i := Block(list[i].at, n)])
  {
    var l, size' := list[i := Block(list[i].at, n)], size[list[i].at := n];
    forall k {:trigger LinkAt(ptr, size', l, k)} | 0 <= k < |l| ensures LinkAt(ptr, size', l, k) {
      LinkOf(ptr, size, list, k);
    }
  }

  /** The address after b once it has absorbed the block it touches, as free computes it. */
  function NextAfter(list: seq<Block>, i: int, b: Block): int
    requires 0 <= i < |list|
  {
    if JoinsNext(list, i, b) then list[Next(i + 1, |list|)].at else list[Next(i, |list|)].at
  }

  lemma WithWithout(list: seq<Block>, i: int, b: Block)
    requires 0 <= i && i + 1 < |list|
    ensures var l := With(list, i, b);
      && |l| == |list| + 1 && 0 <= Next(i + 1, |list|) < |list| && l[i + 1] == b
      && l[i + 2] == list[i + 1] && l[Next(i + 2, |l|)] == list[Next(i + 1, |list|)]
      && Without(l, i + 2) == list[..i + 1] + [b] + list[i + 2..]
  {
  }

  lemma SetMiddle(a: seq<Block>, b: Block, c: Block, rest: seq<Block>)
    ensures (a + [b] + rest)[|a| := c] == a + [c] + rest && (a + [b] + rest)[|a|] == b
  {
  }

  /** free, up to the join with the block after. */
  lemma LinksUpward(ptr: map<int, int>, size: map<int, int>, list: seq<Block>, base: int, i: int, b: Block)
    requires Good(list, base) && Fits(list, i, b) && Linked(ptr, size, list)
    ensures var l := list[..i + 1] + [Upward(list, i, b)] + After(list, i, b);
      && Linked(ptr[b.at := NextAfter(list, i, b)][list[i].at := b.at], size[b.at := Upward(list, i, b).len], l)
      && Asc(l)
  {
    GoodAsc(list, base);
    assert i + 1 < |list| ==> b.at < list[i + 1].at;
    hide Linked, Asc, Good, With, Without, Next, Fits;
    LinksWith(ptr, size, list, i, b);
    var p1, s1 := ptr[b.at := list[Next(i, |list|)].at][list[i].at := b.at], size[b.at := b.len];
    WithIs(list, i, b);
    if JoinsNext(list, i, b) {
      LinksAbsorb(p1, s1, list, i, b);
      assert p1[b.at := NextAfter(list, i, b)] == ptr[b.at := NextAfter(list, i, b)][list[i].at := b.at];
      assert s1[b.at := Upward(list, i, b).len] == size[b.at := Upward(list, i, b).len];
    }
  }

  /** A linked block absorbs the block after it. */
  lemma LinksAbsorb(ptr: map<int, int>, size: map<int, int>, list: seq<Block>, i: int, b: Block)
    requires 0 <= i && i + 1 < |list| && Linked(ptr, size, With(list, i, b)) && Asc(With(list, i, b))
    ensures var l := list[..i + 1] + [Block(b.at, b.len + list[i + 1].len)] + list[i + 2..];
      Linked(ptr[b.at := list[Next(i + 1, |list|)].at], size[b.at := b.len + list[i + 1].len], l) && Asc(l)
  {
    hide Linked, Asc, With, Without, Next;
    WithWithout(list, i, b);
    LinksWithout(ptr, size, With(list, i, b), i + 2);
    SetMiddle(list[..i + 1], b, Block(b.at, b.len + list[i + 1].len), list[i + 2..]);
    LinksResize(ptr[b.at := list[Next(i + 1, |list|)].at], size,
      Without(With(list, i, b), i + 2), i + 1, b.len + list[i + 1].len);
  }

  lemma WithIs(list: seq<Block>, i: int, b: Block)
    requires 0 <= i < |list|
    ensures With(list, i, b) == list[..i + 1] + [b] + list[i + 1..]
  {
  }

  /** Undoing a With at the place of block i, and resizing block i. */
  lemma Merge(a: seq<Block>, b: Block, c: Block, up: Block, rest: seq<Block>)
    ensures var l := a + [b] + [up] + rest;
      && l[|a|] == b && l[|a| + 1] == up
      && Without(l, |a| + 1) == a + [b] + rest && Without(l, |a| + 1)[|a| := c] == a + [c] + rest
  {
    var l := a + [b] + [up] + rest;
    assert Without(l, |a| + 1) == a + [b] + rest;
    SetMiddle(a, b, c, rest);
  }

  /** free, from there: the join with the block before. */
  lemma LinksDownward(ptr: map<int, int>, size: map<int, int>, list: seq<Block>, base: int, i: int, b: Block)
    requires Good(list, base) && Fits(list, i, b) && Linked(ptr, size, list) && JoinsPrev(list, i, b)
    ensures var n, len := NextAfter(list, i, b), Upward(list, i, b).len;
      Linked(ptr[b.at := n][list[i].at := n], size[b.at := len][list[i].at := list[i].len + len], Inserted(list, i, b))
  {
    LinksUpward(ptr, size, list, base, i, b);
    NextHolds(list, i, b);
    hide Linked, Asc, Good, Without, Next, NextAfter, Upward, After;
    var n, up, rest := NextAfter(list, i, b), Upward(list, i, b), After(list, i, b);
    var c := Block(list[i].at, list[i].len + up.len);
    var l := list[..i + 1] + [up] + rest;
    var p1, s1 := ptr[b.at := n][list[i].at := b.at], size[b.at := up.len];
    assert list[..i + 1] == list[..i] + [list[i]];
    Merge(list[..i], list[i], c, up, rest);
    LinksWithout(p1, s1, l, i + 1);
    var p2, l2 := p1[list[i].at := n], Without(l, i + 1);
    assert p2 == ptr[b.at := n][list[i].at := n];
    LinksResize(p2, s1, l2, i, c.len);
  }

  lemma NextHolds(list: seq<Block>, i: int, b: Block)
    requires 0 <= i < |list|
    ensures var l := list[..i + 1] + [Upward(list, i, b)] + After(list, i, b);
      l[Next(i + 1, |l|)].at == NextAfter(list, i, b)
  {
  }

  lemma InsertedLinks(ptr: map<int, int>, size: map<int, int>, list: seq<Block>, base: int, i: int, b: Block)
    requires Good(list, base) && Fits(list, i, b) && Linked(ptr, size, list)
    ensures var p, n, len := list[i].at, NextAfter(list, i, b), Upward(list, i, b).len;
      if JoinsPrev(list, i, b)
      then Linked(ptr[b.at := n][p := n], size[b.at := len][p := list[i].len + len], Inserted(list, i, b))
      else Linked(ptr[b.at := n][p := b.at], size[b.at := len], Inserted(list, i, b))
  {
    if JoinsPrev(list, i, b) {
      LinksDownward(ptr, size, list, base, i, b);
    } else {
      LinksUpward(ptr, size, list, base, i, b);
    }
  }

  lemma TakenLinks(ptr: map<int, int>, size: map<int, int>, list: seq<Block>, base: int, i: int, n: int)
    requires Good(list, base) && Linked(ptr, size, list) && 0 < i < |list| && 0 < n <= list[i].len
    ensures if list[i].len == n then Linked(ptr[list[i - 1].at := list[Next(i, |list|)].at], size, Taken(list, i, n))
      else Linked(ptr, size[list[i].at := list[i].len - n][list[i].at + list[i].len - n := n], Taken(list, i, n))
  {
    GoodAsc(list, base);
    if list[i].len == n {
      LinksWithout(ptr, size, list, i);
    } else {
      LinksResize(ptr, size, list, i, list[i].len - n);
      var l, s1 := Taken(list, i, n), size[list[i].at := list[i].len - n];
      var a := list[i].at + list[i].len - n;
      forall k | 0 <= k < |l| ensures l[k].at != a {
        if k < i { assert list[k].at + list[k].len < list[i].at; }
        if i < k { assert list[i].at + list[i].len < list[k].at; }
      }
      LinksAgree(ptr, s1, l, ptr, s1[a := n]);
    }
  }

  // ---------------------------------------------------------------- what freeing and taking keep

  lemma ApartClear(list: seq<Block>, live: map<int, int>, brk: int, a: int)
    requires Apart(list, live, brk) && a in live
    ensures Clear(list, Block(a, live[a]))
  {
  }

  lemma InsertedApart(list: seq<Block>, base: int, live: map<int, int>, brk: int, i: int, b: Block)
    requires Good(list, base) && Fits(list, i, b) && Apart(list, live, brk) && b.at + b.len <= brk
    requires forall a :: a in live ==> live[a] > 0 && base < a && (a + live[a] <= b.at || b.at + b.len <= a)
    ensures Apart(Inserted(list, i, b), live, brk)
  {
    InsertedGood(list, base, i, b);
    var l := Inserted(list, i, b);
    forall k | 0 < k < |l| ensures l[k].at + l[k].len <= brk {
      InUnits(l, k, l[k].at + l[k].len - 1);
      InsertedUnits(list, base, i, b, l[k].at + l[k].len - 1);
      InBound(list, brk, l[k].at + l[k].len - 1);
    }
    assert list[i].at + list[i].len <= brk && list[0].at <= list[i].at;
    forall k, a | 0 <= k < |l| && a in live ensures a + live[a] <= l[k].at || l[k].at + l[k].len <= a {
      if k > 0 { NoOverlap(list, base, live, brk, i, b, k, a); }
    }
  }

  lemma InUnits(list: seq<Block>, k: int, u: int)
    requires 0 <= k < |list| && Covers(list[k], u)
    ensures InList(list, u)
  {
  }

  lemma InBound(list: seq<Block>, brk: int, u: int)
    requires forall i :: 0 <= i < |list| ==> list[i].at + list[i].len <= brk
    ensures InList(list, u) ==> u < brk
  {
  }

  /** Two stretches of units without a common unit. */
  lemma NoOverlap(list: seq<Block>, base: int, live: map<int, int>, brk: int, i: int, b: Block, k: int, a: int)
    requires Good(list, base) && Fits(list, i, b) && Apart(list, live, brk) && a in live && live[a] > 0 && base < a
    requires a + live[a] <= b.at || b.at + b.len <= a
    requires 0 < k < |Inserted(list, i, b)|
    ensures var c := Inserted(list, i, b)[k]; a + live[a] <= c.at || c.at + c.len <= a
  {
    var l := Inserted(list, i, b);
    var c := l[k];
    InsertedGood(list, base, i, b);
    var u := if c.at < a then a else c.at;
    InsertedUnits(list, base, i, b, u);
    if c.at <= u < c.at + c.len { InUnits(l, k, u); }
    forall j | 0 <= j < |list| ensures Covers(list[j], u) ==> !(a <= u < a + live[a]) {}
  }

  /** A block of the list after taking is one from before, shortened if it was the one taken from. */
  lemma TakenFrom(list: seq<Block>, i: int, n: int, k: int) returns (j: int)
    requires 0 <= i < |list| && 0 < n <= list[i].len && 0 <= k < |Taken(list, i, n)|
    ensures 0 <= j < |list| && Taken(list, i, n)[k].at == list[j].at
    ensures Taken(list, i, n)[k].len == if j == i then list[j].len - n else list[j].len
  {
    j := if k >= i && list[i].len == n then k + 1 else k;
  }

  lemma TakenApart(list: seq<Block>, base: int, live: map<int, int>, brk: int, i: int, n: int)
    requires Good(list, base) && 0 < i < |list| && 0 < n <= list[i].len && Apart(list, live, brk)
    ensures var p := list[i].at + list[i].len - n; Apart(Taken(list, i, n), live[p := n], brk)
  {
    var p := list[i].at + list[i].len - n;
    var l, live' := Taken(list, i, n), live[p := n];
    hide Taken;
    forall k, a | 0 <= k < |l| && a in live' ensures a + live'[a] <= l[k].at || l[k].at + l[k].len <= a {
      var j := TakenFrom(list, i, n, k);
      if j < i { assert list[j].at + list[j].len < list[i].at; }
      if i < j { assert list[i].at + list[i].len < list[j].at; }
    }
    forall k | 0 <= k < |l| ensures l[k].at + l[k].len <= brk {
      var j := TakenFrom(list, i, n, k);
    }
  }

  lemma TakenLive(list: seq<Block>, base: int, live: map<int, int>, size: map<int, int>, size': map<int, int>,
      brk: int, i: int, n: int)
    requires Good(list, base) && 0 < i < |list| && 0 < n <= list[i].len
    requires Apart(list, live, brk) && LiveOk(live, size, base, brk)
    requires var p := list[i].at + list[i].len - n;
      && p in size' && size'[p] == n
      && forall a :: a in size && a != p && a != list[i].at ==> a in size' && size'[a] == size[a]
    ensures var p := list[i].at + list[i].len - n; LiveOk(live[p := n], size', base, brk)
  {
    var p := list[i].at + list[i].len - n;
    var live' := live[p := n];
    assert list[0].at + list[0].len < list[i].at;
    forall a {:trigger LiveAt(live', size', base, brk, a)} | a in live' ensures LiveAt(live', size', base, brk, a) {
      if a != p { assert LiveAt(live, size, base, brk, a); }
    }
    forall a, b | a in live' && b in live' && a < b ensures a + live'[a] <= b {
      if a in live { assert LiveAt(live, size, base, brk, a); }
      if b in live { assert LiveAt(live, size, base, brk, b); }
    }
  }

  lemma FreedLive(list: seq<Block>, base: int, live: map<int, int>, size: map<int, int>, size': map<int, int>,
      brk: int, i: int, bp: int)
    requires LiveOk(live, size, base, brk) && Apart(list, live, brk)
    requires Good(list, base) && 0 <= i < |list| && bp !in live
    requires forall a :: a in size && a != bp && a != list[i].at ==> a in size' && size'[a] == size[a]
    ensures LiveOk(live, size', base, brk)
  {
    forall a {:trigger LiveAt(live, size', base, brk, a)} | a in live ensures LiveAt(live, size', base, brk, a) {
      assert LiveAt(live, size, base, brk, a);
      assert a + live[a] <= list[i].at || list[i].at + list[i].len <= a;
      assert i > 0 ==> list[i].len > 0;
    }
  }

  lemma TakenConserved(list: seq<Block>, base: int, live: map<int, int>, brk: int, granted: iset<int>, i: int, n: int)
    requires Good(list, base) && 0 < i < |list| && 0 < n <= list[i].len
    requires Conserved(list, live, granted) && Apart(list, live, brk)
    requires forall a :: a in live ==> live[a] > 0
    ensures var p := list[i].at + list[i].len - n; Conserved(Taken(list, i, n), live[p := n], granted)
  {
    var p := list[i].at + list[i].len - n;
    var live' := live[p := n];
    assert p !in live;
    forall u ensures u in granted <==> InList(Taken(list, i, n), u) || InLive(live', u) {
      TakenUnits(list, base, i, n, u);
      LiveAdded(live, p, n, u);
      if p <= u < p + n { InUnits(list, i, u); }
    }
  }

  lemma LiveAdded(live: map<int, int>, p: int, n: int, u: int)
    requires p !in live
    ensures InLive(live[p := n], u) <==> InLive(live, u) || p <= u < p + n
  {
    var live' := live[p := n];
    if InLive(live, u) {
      var a :| a in live && a <= u < a + live[a];
      assert a in live' && a <= u < a + live'[a];
    }
    if p <= u < p + n { assert p in live' && p <= u < p + live'[p]; }
  }

  lemma FreedConserved(list: seq<Block>, base: int, live: map<int, int>, granted: iset<int>, i: int, b: Block)
    requires Good(list, base) && Fits(list, i, b) && b.at !in live
    requires Conserved(list, live[b.at := b.len], granted)
    ensures Conserved(Inserted(list, i, b), live, granted)
  {
    forall u ensures u in granted <==> InList(Inserted(list, i, b), u) || InLive(live, u) {
      InsertedUnits(list, base, i, b, u);
      LiveAdded(live, b.at, b.len, u);
    }
  }

  class Heap {
    var ptr: map<int, int>
    var size: map<int, int>
    var freep: int                   // 0 before the first call
    var brk: int                     // the end of the process's memory
    const base: int
    ghost var list: seq<Block>       // the free blocks, in address order
    ghost var at: int                // freep is the header of list[at]
    ghost var live: map<int, int>    // the blocks in use, by header address
    ghost var granted: iset<int>     // the units the kernel has given to morecore
    ghost var end: int               // where the allocator takes its memory to end
    ghost var claimed: iset<int>     // the units the allocator takes to be its own

    ghost predicate Ring()
      reads this
    {
      0 < base && Good(list, base) && Linked(ptr, size, list) && 0 <= at < |list| && list[at].at == freep
    }

    /** The list and the live blocks share out what the allocator claims. */
    ghost predicate Kept()
      reads this
    {
      && 0 < base < end && Good(list, base)
      && (freep == 0 ==> |list| == 1 && live == map[])
      && (freep != 0 ==> Ring())
      && LiveOk(live, size, base, end) && Apart(list, live, end) && Conserved(list, live, claimed)
    }

    /** And it claims what the kernel has granted. */
    ghost predicate Valid()
      reads this
    {
      Kept() && end <= brk && claimed == granted
    }

    constructor (baseAddress: int, top: int)
      requires 0 < baseAddress < top
      ensures Valid() && live == map[] && granted == iset{} && base == baseAddress
      ensures brk == top && list == [Block(base, 0)]
    {
      base, brk, freep := baseAddress, top, 0;
      ptr, size := map[], map[];
      list, at, live, granted := [Block(baseAddress, 0)], 0, map[], iset{};
      end, claimed := top, iset{};
      new;
      forall u ensures !InList(list, u) && !InLive(live, u) {}
    }

    /** The search loop of free ends, at the free block that bp belongs behind. */
    method FindSpot(bp: int) returns (p: int, ghost i: int)
      requires Ring() && base < bp && forall j :: 0 <= j < |list| ==> list[j].at != bp
      ensures Spot(list, i, bp) && p == list[i].at && p in ptr
    {
      hide Linked;
      ghost var n := |list|;
      ghost var target := SpotExists(list, base, bp);
      GoodAsc(list, base);
      p, i := freep, at;
      LinkOf(ptr, size, list, i);
      while !(bp > p && bp < ptr[p])
        invariant 0 <= i < n && p == list[i].at && LinkAt(ptr, size, list, i)
        decreases Dist(i, target, n)
      {
        if p >= ptr[p] && (bp > p || bp < ptr[p]) { break; }
        assert i != target;
        p, i := ptr[p], Next(i, n);
        LinkOf(ptr, size, list, i);
      }
    }

    /** free, on the block with header bp, which nobody uses any more. */
    method GiveBack(bp: int) returns (ghost i: int)
      requires Ring() && base < bp && bp in size && size[bp] > 0 && Clear(list, Block(bp, size[bp]))
      modifies this
      ensures Ring() && brk == old(brk) && live == old(live) && granted == old(granted)
      ensures end == old(end) && claimed == old(claimed)
      ensures Fits(old(list), i, Block(bp, old(size)[bp])) && list == Inserted(old(list), i, Block(bp, old(size)[bp]))
      ensures freep == old(list)[i].at
      ensures forall a :: a in old(size) && a != bp && a != freep ==> a in size && size[a] == old(size)[a]
    {
      hide Linked, Good, Inserted, Clear, JoinsNext, Upward, NextAfter, Fits, Spot;
      ghost var b := Block(bp, size[bp]);
      ClearMisses(list, base, b);
      var p;
      p, i := FindSpot(bp);
      ClearFits(list, base, i, b);
      SpliceFacts(ptr, size, list, base, i, b);
      InsertedLinks(ptr, size, list, base, i, b);
      InsertedGood(list, base, i, b);
      if bp + size[bp] == ptr[p] {
        var q := ptr[p];
        size := size[bp := size[bp] + size[q]];
        ptr := ptr[bp := ptr[q]];
      } else {
        ptr := ptr[bp := ptr[p]];
        assert size == size[bp := size[bp]];
      }
      if p + size[p] == bp {
        size := size[p := size[p] + size[bp]];
        ptr := ptr[p := ptr[bp]];
      } else {
        ptr := ptr[p := bp];
      }
      freep := p;
      list := Inserted(list, i, b);
      at := i;
      InsertedAt(old(list), i, b);
    }

    /**
      Other code of the program may move the break too.  Above the heap that leaves a gap, and is
      harmless; the heap survives a lower break just if no unit of it lies above that.
     */
    method OtherSbrk(n: int)
      requires Valid()
      modifies this
      ensures Kept() && brk == BrkAfter(old(brk), n) && live == old(live) && list == old(list)
      ensures granted == iset u | u in old(granted) && u < brk
      ensures n >= 0 ==> Valid() && granted == old(granted)
      ensures Valid() <==> base < brk && forall u :: u in old(granted) ==> u < brk
    {
      hide Good, Linked, LiveOk, Apart, Conserved;
      brk := BrkAfter(brk, n);
      GrantedBelow(list, live, size, base, end, granted);
      ghost var kept := iset u | u in granted && u < brk;
      if kept == granted && base < brk < end {
        LowerEnd(list, live, size, base, end, brk, granted);
        end := brk;
      }
      granted := kept;
    }

    /** free: the block is free; by Canonical, the free list is thereby determined. */
    method Free(ap: int)
      requires Valid() && ap - 1 in live
      modifies this
      ensures Valid() && live == old(live) - {ap - 1} && granted == old(granted) && brk == old(brk)
    {
      hide Good, Linked, LiveOk, Apart, Conserved, Clear;
      var bp := ap - 1;
      LiveFacts(live, size, base, end, bp);
      ghost var b, live0 := Block(bp, live[bp]), live;
      ApartClear(list, live, end, bp);
      live := live - {bp};
      FewerLive(list, live0, size, base, end, bp);
      ghost var i := GiveBack(bp);
      FreedLive(old(list), base, live, old(size), size, end, i, bp);
      InsertedApart(old(list), base, live, end, i, b);
      assert live0 == live[b.at := b.len];
      FreedConserved(old(list), base, live, claimed, i, b);
      NotNull(list, base, at);
    }

    /**
      morecore: a block of at least nu units after the old break joins the free list, unless the
      kernel refuses or the store into its header faults.  The claim is good just below 2^27 units.
     */
    method Morecore(nu: int, grant: bool) returns (r: int, died: bool)
      requires Valid() && freep != 0 && 1 <= nu <= 0x1000_0001
      modifies this
      ensures Kept() && live == old(live) && freep != 0
      ensures died <==> !Refused(nu, grant) && Traps(old(brk), nu)
      ensures r == 0 <==> Refused(nu, grant) || died
      ensures r == 0 ==> list == old(list) && freep == old(freep)
      ensures Refused(nu, grant) ==> Valid() && granted == old(granted) && brk == old(brk)
      ensures !Refused(nu, grant) ==> Answered(old(brk), old(granted), brk, granted, nu)
      ensures r != 0 ==> r == freep && Grown(old(list), list, base, Block(old(brk), Least(nu)))
      ensures r != 0 ==> Claimed(old(brk), old(granted), end, claimed, nu)
      ensures r != 0 ==> (Valid() <==> nu < 0x800_0000)
    {
      hide Good, Linked, LiveOk, Apart, Conserved, Clear, Inserted, Grown;
      var n := if nu < 4096 then 4096 else nu;
      var d := ToInt(n * 16) / 16;
      if d > 0 && !grant { return 0, false; }
      var hp := brk;
      brk := BrkAfter(brk, d);
      granted := GrantedAfter(granted, hp, brk);
      if Traps(hp, nu) { return 0, true; }
      BrkMoves(list, live, size, base, end, hp, n);
      size := size[hp := n];
      ghost var b := Block(hp, n);
      LinksElsewhere(ptr, old(size), list, base, hp, n);
      ghost var size1 := size;
      ghost var i := GiveBack(hp);
      end, claimed := hp + n, claimed + UnitsOf(b);
      FreedLive(old(list), base, live, size1, size, end, i, hp);
      InsertedApart(old(list), base, live, end, i, b);
      GrantConserved(old(list), base, live, old(claimed), i, b);
      GrantedBelow(old(list), live, old(size), base, old(end), old(claimed));
      Claims(old(granted), hp, nu);
      NotNull(list, base, at);
      IsGrown(old(list), base, i, b);
      r, died := freep, false;
    }

    /** malloc's cut: n units off the end of block i, whose predecessor in the ring is prevp. */
    method Cut(prevp: int, q: int, n: int, ghost i: int) returns (r: int)
      requires Kept() && freep != 0 && 0 < i < |list| && 0 < n <= list[i].len
      requires q == list[i].at && prevp == list[i - 1].at
      modifies this
      ensures Kept() && live == old(live)[r - 1 := n] && r - 1 !in old(live)
      ensures granted == old(granted) && brk == old(brk)
      ensures r > 0 && r - 1 + n == old(list)[i].at + old(list)[i].len && end == old(end) && claimed == old(claimed)
    {
      hide Good, Linked, LiveOk, Apart, Conserved, Taken;
      NotNull(list, base, i);
      LinkOf(ptr, size, list, i);
      LinkOf(ptr, size, list, i - 1);
      TakenLinks(ptr, size, list, base, i, n);
      TakenGood(list, base, i, n);
      var p := q;
      ghost var a := list[i].at + list[i].len - n;
      if size[p] == n {
        ptr := ptr[prevp := ptr[p]];
      } else {
        size := size[p := size[p] - n];
        p := p + size[p];
        size := size[p := n];
      }
      freep := prevp;
      TakenLive(list, base, live, old(size), size, end, i, n);
      TakenApart(list, base, live, end, i, n);
      LivePositive(live, old(size), base, end);
      TakenConserved(list, base, live, end, claimed, i, n);
      TakenMisses(list, live, end, i, n);
      live := live[p := n];
      TakenAt(list, i, n);
      list := Taken(list, i, n);
      at := i - 1;
      NotNull(list, base, at);
      r := p + 1;
    }

    /**
      malloc: a new live block of the right size, cut from a free one; 0 if no free block is
      large enough and the kernel refuses; or the program dies of the fault in morecore.  It asks
      the kernel at most once.  The new block has a unit that was never granted just if the
      kernel was asked, did not refuse, and nbytes > 0x7fffffe0.
     */
    method Malloc(nbytes: int, grant: bool) returns (r: int, died: bool, ghost asked: bool)
      requires Valid() && 0 <= nbytes < 0x1_0000_0000
      modifies this
      ensures Kept() && (asked <==> NoneFits(old(list), Units(nbytes)))
      ensures died <==> asked && !Refused(Units(nbytes), grant) && Traps(old(brk), Units(nbytes))
      ensures r == 0 <==> died || (asked && Refused(Units(nbytes), grant))
      ensures r == 0 ==> live == old(live)
      ensures r == 0 && !died ==> Valid() && granted == old(granted) && brk == old(brk)
      ensures r != 0 ==> r - 1 !in old(live) && live == old(live)[r - 1 := Units(nbytes)]
      ensures r != 0 && !asked ==> granted == old(granted) && brk == old(brk)
      ensures r != 0 && asked ==> Answered(old(brk), old(granted), brk, granted, Units(nbytes))
      ensures r != 0 && asked && Units(nbytes) >= 4096 ==> r - 1 == old(brk)
      ensures r != 0 ==> (Valid() <==> !asked || nbytes <= 0x7fff_ffe0)
      ensures r != 0 ==> (Overdrawn(live, granted) <==> asked && nbytes > 0x7fff_ffe0)
    {
      hide Good, Linked, LiveOk, Apart, Conserved, Checked, NoneFits, OnlyTop, Grown;
      hide Asked, Refused, Traps, Answered, Claimed, Overdrawn;
      var nunits := Units(nbytes);
      FirstUnit(list, base);
      if freep == 0 {
        ptr, size, freep := ptr[base := base], size[base := 0], base;
        at := 0;
        FirstLink(ptr, size, list, base);
        assert LiveOk(live, size, base, end) by { NoLive(live, size, base, end); }
      }
      var prevp := freep;
      ghost var i := at;
      asked := false;
      NoneChecked(list, at, nunits);
      LinkOf(ptr, size, list, at);
      var p := ptr[prevp];
      while true
        invariant Kept() && freep != 0 && live == old(live) && 0 <= i < |list|
        invariant prevp == list[i].at && p == list[Next(i, |list|)].at
        invariant Checked(list, at, i, nunits)
        invariant asked ==> NoneFits(old(list), nunits) && OnlyTop(list, nunits, end)
        invariant asked ==> !Refused(nunits, grant) && !Traps(old(brk), nunits)
        invariant asked ==> Answered(old(brk), old(granted), brk, granted, nunits)
        invariant asked ==> Claimed(old(brk), old(granted), end, claimed, nunits)
        invariant !asked ==> list == old(list) && granted == old(granted) && brk == old(brk) && Valid()
        decreases !asked, |list| - Dist(at, i, |list|)
      {
        ghost var q := Next(i, |list|);
        LinkOf(ptr, size, list, q);
        FirstUnit(list, base);
        if size[p] >= nunits {
          ghost var list0 := list;
          r := Cut(prevp, p, nunits, q);
          SomeFits(list0, nunits, q);
          NotOverdrawn(list, live, claimed);
          if asked {
            TopIs(list0, nunits, end, q);
            GrantedBelow(old(list), old(live), old(size), base, old(end), old(granted));
            Delivered(old(brk), old(granted), brk, granted, end, claimed, live, r - 1, nbytes);
          }
          return r, false, asked;
        }
        CheckedNext(list, base, at, i, nunits);
        if p == freep {
          if asked { TopFits(list, nunits, end); }
          p, died := Morecore(nunits, grant);
          asked := true;
          if p == 0 { return 0, died, true; }
          GrownTop(old(list), old(live), old(end), list, base, old(brk), nunits);
          EndIs(old(brk), old(granted), end, claimed, nunits);
          i := at;
          NoneChecked(list, at, nunits);
        } else {
          i := q;
        }
        prevp := p;
        LinkOf(ptr, size, list, i);
        p := ptr[p];
      }
    }
  }

  /** What free reads from the headers around bp. */
  lemma SpliceFacts(ptr: map<int, int>, size: map<int, int>, list: seq<Block>, base: int, i: int, b: Block)
    requires Good(list, base) && Fits(list, i, b) && Linked(ptr, size, list)
    ensures 0 <= i < |list|
    ensures var p, n, len := list[i].at, NextAfter(list, i, b), Upward(list, i, b).len;
      && p in ptr && p in size && size[p] == list[i].len && p != b.at && ptr[p] != b.at
      && (b.at + b.len == ptr[p] <==> JoinsNext(list, i, b))
      && (b.at + b.len == ptr[p] ==> ptr[p] in size && ptr[p] in ptr && ptr[ptr[p]] == n && b.len + size[ptr[p]] == len)
      && (b.at + b.len != ptr[p] ==> ptr[p] == n && b.len == len)
  {
    LinkOf(ptr, size, list, i);
    LinkOf(ptr, size, list, Next(i, |list|));
    assert i + 1 < |list| ==> list[i].at + list[i].len < list[i + 1].at;
    if i + 1 == |list| && i > 0 { assert list[0].at + list[0].len < list[i].at; }
  }

  lemma ClearMisses(list: seq<Block>, base: int, b: Block)
    requires Good(list, base) && Clear(list, b) && b.len > 0 && base < b.at
    ensures forall j :: 0 <= j < |list| ==> list[j].at != b.at
  {
  }

  lemma InsertedAt(list: seq<Block>, i: int, b: Block)
    requires 0 <= i < |list|
    ensures i < |Inserted(list, i, b)| && Inserted(list, i, b)[i].at == list[i].at
  {
  }

  lemma LiveFacts(live: map<int, int>, size: map<int, int>, base: int, brk: int, a: int)
    requires LiveOk(live, size, base, brk) && a in live
    ensures a in size && size[a] == live[a] && live[a] > 0 && base < a && a + live[a] <= brk
  {
    assert LiveAt(live, size, base, brk, a);
  }

  lemma LivePositive(live: map<int, int>, size: map<int, int>, base: int, brk: int)
    requires LiveOk(live, size, base, brk)
    ensures forall a :: a in live ==> live[a] > 0
  {
    forall a | a in live ensures live[a] > 0 { LiveFacts(live, size, base, brk, a); }
  }

  lemma FewerLive(list: seq<Block>, live: map<int, int>, size: map<int, int>, base: int, brk: int, bp: int)
    requires LiveOk(live, size, base, brk) && Apart(list, live, brk) && bp in live
    ensures LiveOk(live - {bp}, size, base, brk) && Apart(list, live - {bp}, brk)
    ensures forall a :: a in live - {bp} ==> live[a] > 0 && base < a && (a + live[a] <= bp || bp + live[bp] <= a)
  {
    var l := live - {bp};
    forall a {:trigger LiveAt(l, size, base, brk, a)} | a in l ensures LiveAt(l, size, base, brk, a) {
      assert LiveAt(live, size, base, brk, a);
    }
    forall a | a in l ensures live[a] > 0 && base < a && (a + live[a] <= bp || bp + live[bp] <= a) {
      LiveFacts(live, size, base, brk, a);
    }
  }

  /** No unit is both free and live. */
  lemma NeverBoth(list: seq<Block>, live: map<int, int>, brk: int, u: int)
    requires Apart(list, live, brk)
    ensures !(InList(list, u) && InLive(live, u))
  {
  }

  /** The payloads of two live blocks have no unit in common, and neither contains a header. */
  lemma LiveDisjoint(live: map<int, int>, size: map<int, int>, base: int, brk: int, a: int, b: int, u: int)
    requires LiveOk(live, size, base, brk) && a in live && b in live && a != b && a <= u < a + live[a]
    ensures !(b <= u < b + live[b])
  {
  }

  lemma NotNull(list: seq<Block>, base: int, i: int)
    requires Good(list, base) && 0 <= i < |list|
    ensures base <= list[i].at
  {
    if i > 0 { assert list[0].at + list[0].len < list[i].at; }
  }

  lemma AskedIsAll(nu: int)
    requires 1 <= nu < 0x800_0000
    ensures Asked(nu) == if nu < 4096 then 4096 else nu
  {
  }

  /** Memory past the old break is nobody's. */
  lemma BrkMoves(list: seq<Block>, live: map<int, int>, size: map<int, int>, base: int, end: int, brk: int, n: int)
    requires Good(list, base) && LiveOk(live, size, base, end) && Apart(list, live, end) && n > 0 && end <= brk
    ensures LiveOk(live, size[brk := n], base, brk + n) && Apart(list, live, brk + n) && brk !in live
    ensures Clear(list, Block(brk, n))
    ensures forall a :: a in live ==> live[a] > 0 && base < a && (a + live[a] <= brk || brk + n <= a)
  {
    forall a | a in live ensures live[a] > 0 && base < a && a + live[a] <= brk && a != brk {
      LiveFacts(live, size, base, end, a);
    }
    var size' := size[brk := n];
    forall a {:trigger LiveAt(live, size', base, brk + n, a)} | a in live
      ensures LiveAt(live, size', base, brk + n, a)
    {
      assert LiveAt(live, size, base, end, a);
    }
  }

  lemma LinksElsewhere(ptr: map<int, int>, size: map<int, int>, list: seq<Block>, base: int, a: int, n: int)
    requires Linked(ptr, size, list) && Good(list, base) && Clear(list, Block(a, n)) && n > 0 && base < a
    ensures Linked(ptr, size[a := n], list)
  {
    ClearMisses(list, base, Block(a, n));
    LinksAgree(ptr, size, list, ptr, size[a := n]);
  }

  lemma GrantConserved(list: seq<Block>, base: int, live: map<int, int>, granted: iset<int>, i: int, b: Block)
    requires Good(list, base) && Fits(list, i, b) && Conserved(list, live, granted)
    ensures Conserved(Inserted(list, i, b), live, granted + UnitsOf(b))
  {
    forall u ensures InList(Inserted(list, i, b), u) <==> InList(list, u) || Covers(b, u) {
      InsertedUnits(list, base, i, b, u);
    }
  }

  /** The list after freeing b behind one of its blocks. */
  ghost predicate Grown(list: seq<Block>, list': seq<Block>, base: int, b: Block) {
    Good(list, base) && exists i {:trigger Fits(list, i, b)} :: Fits(list, i, b) && list' == Inserted(list, i, b)
  }

  lemma IsGrown(list: seq<Block>, base: int, i: int, b: Block)
    requires Good(list, base) && Fits(list, i, b)
    ensures Grown(list, Inserted(list, i, b), base, b)
  {
  }

  /** A block with n units ends at top, and every block with as many does. */
  ghost predicate OnlyTop(list: seq<Block>, n: int, top: int) {
    && !NoneFits(list, n)
    && (forall j :: 0 <= j < |list| && list[j].len >= n ==> list[j].at + list[j].len == top)
  }

  lemma TopIs(list: seq<Block>, n: int, top: int, j: int)
    requires OnlyTop(list, n, top) && 0 <= j < |list| && list[j].len >= n
    ensures list[j].at + list[j].len == top
  {
  }

  lemma TopFits(list: seq<Block>, n: int, top: int)
    requires OnlyTop(list, n, top)
    ensures !NoneFits(list, n)
  {
  }

  /** If no block had n units, only the one that b went into has, and it ends with b. */
  lemma GrownTop(list: seq<Block>, live: map<int, int>, end: int, list': seq<Block>, base: int, brk: int, nu: int)
    requires Grown(list, list', base, Block(brk, Least(nu))) && NoneFits(list, nu)
    requires Apart(list, live, end) && end <= brk
    ensures OnlyTop(list', nu, brk + Least(nu))
  {
    var b := Block(brk, Least(nu));
    var i :| Fits(list, i, b) && list' == Inserted(list, i, b);
    assert i + 1 == |list|;
    var k := if JoinsPrev(list, i, b) then i else i + 1;
    assert |list'| == k + 1 && list'[k].at + list'[k].len == b.at + b.len && list'[k].len >= nu;
    assert forall j :: 0 <= j < k ==> list'[j] == list[j];
  }

  lemma SomeFits(list: seq<Block>, n: int, j: int)
    requires 0 <= j < |list| && list[j].len >= n
    ensures !NoneFits(list, n)
  {
  }

  lemma NoneChecked(list: seq<Block>, f: int, n: int)
    ensures Checked(list, f, f, n)
  {
  }

  // ---------------------------------------------------------------- what was granted, and what is claimed

  /** Every granted unit lies below the end. */
  lemma GrantedBelow(list: seq<Block>, live: map<int, int>, size: map<int, int>, base: int, end: int,
      granted: iset<int>)
    requires LiveOk(live, size, base, end) && Apart(list, live, end) && Conserved(list, live, granted)
    ensures forall u :: u in granted ==> u < end
  {
    forall u | u in granted ensures u < end {
      InBound(list, end, u);
      if InLive(live, u) {
        var a :| a in live && a <= u < a + live[a];
        LiveFacts(live, size, base, end, a);
      }
    }
  }

  /** A heap whose units all lie below brk ends there. */
  lemma LowerEnd(list: seq<Block>, live: map<int, int>, size: map<int, int>, base: int, end: int, brk: int,
      granted: iset<int>)
    requires Good(list, base) && LiveOk(live, size, base, end)
    requires Apart(list, live, end) && Conserved(list, live, granted)
    requires base < brk && forall u :: u in granted ==> u < brk
    ensures LiveOk(live, size, base, brk) && Apart(list, live, brk)
  {
    forall i | 0 <= i < |list| ensures list[i].at + list[i].len <= brk {
      if i > 0 { StartIn(list, base, i); }
    }
    forall a {:trigger LiveAt(live, size, base, brk, a)} | a in live ensures LiveAt(live, size, base, brk, a) {
      LiveFacts(live, size, base, end, a);
      assert InLive(live, a + live[a] - 1);
    }
  }

  /** The least number of units morecore takes. */
  function Least(nu: int): int {
    if nu < 4096 then 4096 else nu
  }

  /** The break and the grant after morecore has asked for nu units and was not refused. */
  ghost predicate Answered(brk: int, granted: iset<int>, brk': int, granted': iset<int>, nu: int) {
    brk' == BrkAfter(brk, Asked(nu)) && granted' == GrantedAfter(granted, brk, brk')
  }

  /** What the allocator takes it was given then. */
  ghost predicate Claimed(brk: int, granted: iset<int>, end: int, claimed: iset<int>, nu: int) {
    end == brk + Least(nu) && claimed == granted + UnitsOf(Block(brk, Least(nu)))
  }

  lemma EndIs(brk: int, granted: iset<int>, end: int, claimed: iset<int>, nu: int)
    requires Claimed(brk, granted, end, claimed, nu)
    ensures end == brk + Least(nu)
  {
  }

  /** The last unit morecore claims was granted just if it asked for fewer than 2^27 units. */
  lemma LastUnit(granted: iset<int>, brk: int, nu: int)
    requires 1 <= nu <= 0x1000_0001 && brk >= 0 && forall u :: u in granted ==> u < brk
    ensures brk + nu - 1 in GrantedAfter(granted, brk, BrkAfter(brk, Asked(nu))) <==> nu < 0x800_0000
  {
    AskedIsEnough(nu);
  }

  /** morecore's claim is what it was granted, and no more, just if it asked for fewer than 2^27 units. */
  lemma Claims(granted: iset<int>, brk: int, nu: int)
    requires 1 <= nu <= 0x1000_0001 && brk >= 0 && forall u :: u in granted ==> u < brk
    ensures var brk' := BrkAfter(brk, Asked(nu));
      (granted + UnitsOf(Block(brk, Least(nu))) == GrantedAfter(granted, brk, brk') && brk + Least(nu) <= brk') <==>
      nu < 0x800_0000
  {
    if nu < 0x800_0000 { AskedIsAll(nu); } else {
      LastUnit(granted, brk, nu);
      assert brk + nu - 1 in UnitsOf(Block(brk, Least(nu)));
    }
  }

  /** Some unit in use was not granted. */
  ghost predicate Overdrawn(live: map<int, int>, granted: iset<int>) {
    exists u :: InLive(live, u) && u !in granted
  }

  lemma NotOverdrawn(list: seq<Block>, live: map<int, int>, claimed: iset<int>)
    requires Conserved(list, live, claimed)
    ensures !Overdrawn(live, claimed)
  {
  }

  /** A large request is handed the units from the old break on, the last of which was not granted. */
  lemma Delivered(brk: int, granted: iset<int>, brk': int, granted': iset<int>, end: int, claimed: iset<int>,
                  live: map<int, int>, p: int, nbytes: int)
    requires 0 <= nbytes < 0x1_0000_0000 && brk >= 0 && forall u :: u in granted ==> u < brk
    requires Answered(brk, granted, brk', granted', Units(nbytes)) && Claimed(brk, granted, end, claimed, Units(nbytes))
    requires p in live && live[p] == Units(nbytes) && p + Units(nbytes) == end && !Overdrawn(live, claimed)
    ensures Units(nbytes) >= 4096 ==> p == brk
    ensures claimed == granted' && end <= brk' <==> nbytes <= 0x7fff_ffe0
    ensures Overdrawn(live, granted') <==> nbytes > 0x7fff_ffe0
  {
    Claims(granted, brk, Units(nbytes));
    LastUnit(granted, brk, Units(nbytes));
    if nbytes > 0x7fff_ffe0 { assert InLive(live, brk + Units(nbytes) - 1); }
  }

  /** The first request past the bound, on a fresh heap whose break is inside a page. */
  method FirstTooLarge() returns (h: Heap, r: int)
    ensures fresh(h) && r != 0 && InLive(h.live, 0x800_0101) && 0x800_0101 !in h.granted && h.brk == 258
  {
    h := new Heap(1, 258);
    var died;
    ghost var asked;
    TrapsWhen(258, Units(0x7fff_ffe1));
    r, died, asked := h.Malloc(0x7fff_ffe1, true);
  }

  lemma TakenMisses(list: seq<Block>, live: map<int, int>, brk: int, i: int, n: int)
    requires Apart(list, live, brk) && 0 <= i < |list| && 0 < n <= list[i].len && forall a :: a in live ==> live[a] > 0
    ensures list[i].at + list[i].len - n !in live
  {
  }

  lemma TakenAt(list: seq<Block>, i: int, n: int)
    requires 0 < i < |list|
    ensures i - 1 < |Taken(list, i, n)| && Taken(list, i, n)[i - 1] == list[i - 1]
  {
  }

  /** No block of the list has n units. */
  ghost predicate NoneFits(list: seq<Block>, n: int) {
    forall j :: 0 <= j < |list| ==> list[j].len < n
  }

  /** The blocks behind f up to i, around the ring, are too small. */
  ghost predicate Checked(list: seq<Block>, f: int, i: int, n: int) {
    forall j :: 0 <= j < |list| && 0 < Dist(f, j, |list|) <= Dist(f, i, |list|) ==> list[j].len < n
  }

  lemma CheckedNext(list: seq<Block>, base: int, f: int, i: int, n: int)
    requires Good(list, base) && 0 <= f < |list| && 0 <= i < |list| && Checked(list, f, i, n)
    requires list[Next(i, |list|)].len < n
    ensures list[Next(i, |list|)].at == list[f].at ==> NoneFits(list, n)
    ensures list[Next(i, |list|)].at != list[f].at ==> Checked(list, f, Next(i, |list|), n)
    ensures list[Next(i, |list|)].at != list[f].at ==> Dist(f, Next(i, |list|), |list|) == Dist(f, i, |list|) + 1
  {
    GoodAsc(list, base);
    var q := Next(i, |list|);
    assert list[q].at == list[f].at <==> q == f;
    if q == f {
      forall j | 0 <= j < |list| ensures list[j].len < n {
        assert j != f ==> 0 < Dist(f, j, |list|) <= Dist(f, i, |list|);
      }
    }
  }

  lemma FirstUnit(list: seq<Block>, base: int)
    requires Good(list, base)
    ensures |list| > 0 && list[0] == Block(base, 0)
  {
  }

  lemma FirstLink(ptr: map<int, int>, size: map<int, int>, list: seq<Block>, base: int)
    requires list == [Block(base, 0)] && base in ptr && ptr[base] == base && base in size && size[base] == 0
    ensures Linked(ptr, size, list)
  {
  }

  lemma NoLive(live: map<int, int>, size: map<int, int>, base: int, brk: int)
    requires live == map[]
    ensures LiveOk(live, size, base, brk)
  {
  }
}
