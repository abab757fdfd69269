/**
  The free list of the allocator in umalloc.c as a value: blocks in address order.

  Addresses and lengths count headers (16 bytes).  The static header base, of length 0,
  lies below the heap and is always the first block.
 */
module FreeBlocks {
  datatype Block = Block(at: int, len: int)

  /** In address order, disjoint, and with a gap between neighbours: nothing is left to join. */
  ghost predicate Good(list: seq<Block>, base: int) {
    && |list| > 0 && list[0] == Block(base, 0)
    && (forall i :: 0 < i < |list| ==> list[i].len > 0)
    && (forall i, j :: 0 <= i < j < |list| ==> list[i].at + list[i].len < list[j].at)
  }

  ghost predicate Covers(b: Block, u: int) {
    b.at <= u < b.at + b.len
  }

  /** Unit u is in some block of the list. */
  ghost predicate InList(list: seq<Block>, u: int) {
    exists i :: 0 <= i < |list| && Covers(list[i], u)
  }

  // ---------------------------------------------------------------- the list is determined by its units

  lemma StartIn(list: seq<Block>, base: int, i: int)
    requires Good(list, base) && 0 < i < |list|
    ensures InList(list, list[i].at) && InList(list, list[i].at + list[i].len - 1)
    ensures !InList(list, list[i].at - 1) && !InList(list, list[i].at + list[i].len)
  {
    assert Covers(list[i], list[i].at) && Covers(list[i], list[i].at + list[i].len - 1);
    forall j | 0 <= j < |list| ensures !Covers(list[j], list[i].at - 1) && !Covers(list[j], list[i].at + list[i].len) {
      if j < i { assert list[j].at + list[j].len < list[i].at; }
      else if i < j { assert list[i].at + list[i].len < list[j].at; }
    }
  }

  ghost predicate SameUnits(a: seq<Block>, b: seq<Block>) {
    forall u :: InList(a, u) <==> InList(b, u)
  }

  /** A block of a is a block of b, if both are coalesced and cover the same units. */
  lemma SameBlock(a: seq<Block>, b: seq<Block>, base: int, i: int) returns (j: int)
    requires Good(a, base) && Good(b, base) && SameUnits(a, b) && 0 < i < |a|
    ensures 0 < j < |b| && b[j] == a[i]
  {
    StartIn(a, base, i);
    var x := a[i].at;
    assert InList(b, x) && !InList(b, x - 1);
    j :| 0 <= j < |b| && Covers(b[j], x);
    assert !Covers(b[j], x - 1);
    StartIn(b, base, j);
    var y, z := x + a[i].len, b[j].at + b[j].len;
    assert !InList(b, y) && !InList(a, z);
    assert !Covers(b[j], y) && !Covers(a[i], z);
  }

  /** The free list is the only coalesced, ordered list with its units. */
  lemma {:induction false} Canonical(a: seq<Block>, b: seq<Block>, base: int)
    requires Good(a, base) && Good(b, base) && SameUnits(a, b)
    ensures a == b
  {
    forall i | 0 <= i < |a| && i < |b| ensures a[i] == b[i] {
      CanonicalAt(a, b, base, i);
    }
    if |a| < |b| {
      var j := SameBlock(b, a, base, |a|);
    }
    if |b| < |a| {
      var j := SameBlock(a, b, base, |b|);
    }
  }

  lemma {:induction false} CanonicalAt(a: seq<Block>, b: seq<Block>, base: int, i: int)
    requires Good(a, base) && Good(b, base) && SameUnits(a, b) && 0 <= i < |a| && i < |b|
    ensures a[i] == b[i]
    decreases i
  {
    if i > 0 {
      var j := SameBlock(a, b, base, i);
      var k := SameBlock(b, a, base, i);
      if j < i { CanonicalAt(a, b, base, j); }
      if k < i { CanonicalAt(a, b, base, k); }
    }
  }

  // ---------------------------------------------------------------- freeing a block

  /** b goes after block i: it touches no block of the list except at its ends. */
  ghost predicate Fits(list: seq<Block>, i: int, b: Block) {
    && 0 <= i < |list| && b.len > 0 && list[i].at < b.at && list[i].at + list[i].len <= b.at
    && (i + 1 < |list| ==> b.at + b.len <= list[i + 1].at)
  }

  predicate JoinsNext(list: seq<Block>, i: int, b: Block)
    requires 0 <= i < |list|
  {
    i + 1 < |list| && b.at + b.len == list[i + 1].at
  }

  predicate JoinsPrev(list: seq<Block>, i: int, b: Block)
    requires 0 <= i < |list|
  {
    list[i].at + list[i].len == b.at
  }

  /** b, grown by the block after it if they touch. */
  function Upward(list: seq<Block>, i: int, b: Block): Block
    requires 0 <= i < |list|
  {
    if JoinsNext(list, i, b) then Block(b.at, b.len + list[i + 1].len) else b
  }

  function After(list: seq<Block>, i: int, b: Block): seq<Block>
    requires 0 <= i < |list|
  {
    if JoinsNext(list, i, b) then list[i + 2..] else list[i + 1..]
  }

  /** The list after freeing b behind block i. */
  function Inserted(list: seq<Block>, i: int, b: Block): seq<Block>
    requires 0 <= i < |list|
  {
    var up := Upward(list, i, b);
    if JoinsPrev(list, i, b)
    then list[..i] + [Block(list[i].at, list[i].len + up.len)] + After(list, i, b)
    else list[..i + 1] + [up] + After(list, i, b)
  }

  /** The blocks lie in order between lo and hi, with gaps between them. */
  ghost predicate Spread(s: seq<Block>, lo: int, hi: int) {
    && (forall i :: 0 <= i < |s| ==> lo <= s[i].at && s[i].len > 0 && s[i].at + s[i].len < hi)
    && (forall i, j :: 0 <= i < j < |s| ==> s[i].at + s[i].len < s[j].at)
  }

  lemma SpreadCat(a: seq<Block>, b: seq<Block>, lo: int, mid: int, hi: int)
    requires Spread(a, lo, mid) && Spread(b, mid, hi) && lo <= mid <= hi
    ensures Spread(a + b, lo, hi)
  {
  }

  lemma SpreadOne(b: Block, lo: int, hi: int)
    requires lo <= b.at && b.len > 0 && b.at + b.len < hi
    ensures Spread([b], lo, hi)
  {
  }

  lemma GoodIsSpread(list: seq<Block>, base: int, hi: int)
    requires |list| > 0 && list[0] == Block(base, 0)
    ensures Spread(list[1..], base + 1, hi) ==> Good(list, base)
  {
    if Spread(list[1..], base + 1, hi) {
      var rest := list[1..];
      forall i, j | 0 <= i < j < |list| ensures list[i].at + list[i].len < list[j].at {
        assert list[j] == rest[j - 1];
        if i > 0 { assert list[i] == rest[i - 1]; }
      }
      forall i | 0 < i < |list| ensures list[i].len > 0 {
        assert list[i] == rest[i - 1];
      }
    }
  }

  /** The blocks of a good list between two indices. */
  lemma SpreadSlice(list: seq<Block>, base: int, i: int, j: int, lo: int, hi: int)
    requires Good(list, base) && 0 < i <= j <= |list|
    requires i < j ==> lo <= list[i].at && list[j - 1].at + list[j - 1].len < hi
    ensures Spread(list[i..j], lo, hi)
  {
    var s := list[i..j];
    forall k | 0 <= k < |s| ensures lo <= s[k].at && s[k].len > 0 && s[k].at + s[k].len < hi {
      assert s[k] == list[i + k];
      if k > 0 { assert list[i].at + list[i].len < list[i + k].at; }
      if i + k < j - 1 { assert list[i + k].at + list[i + k].len < list[j - 1].at; }
    }
  }

  /** One past everything in the list and past b. */
  function Above(list: seq<Block>, b: Block): int
    requires |list| > 0
  {
    var e := list[|list| - 1];
    (if e.at + e.len > b.at + b.len then e.at + e.len else b.at + b.len) + 1
  }

  lemma TailSpread(list: seq<Block>, base: int, i: int, b: Block, lo: int)
    requires Good(list, base) && Fits(list, i, b) && lo <= b.at
    ensures Spread([Upward(list, i, b)] + After(list, i, b), lo, Above(list, b))
  {
    var up, rest, hi := Upward(list, i, b), After(list, i, b), Above(list, b);
    var k := if JoinsNext(list, i, b) then i + 2 else i + 1;
    var mid := up.at + up.len + 1;
    assert rest == list[k..|list|];
    if k < |list| {
      if JoinsNext(list, i, b) { assert list[i + 1].at + list[i + 1].len < list[k].at; }
      SpreadSlice(list, base, k, |list|, mid, hi);
      assert list[k].at < hi;
      SpreadOne(up, lo, mid);
      SpreadCat([up], rest, lo, mid, hi);
    } else {
      SpreadOne(up, lo, hi);
      assert [up] + rest == [up];
    }
  }

  lemma InsertedGood(list: seq<Block>, base: int, i: int, b: Block)
    requires Good(list, base) && Fits(list, i, b)
    ensures Good(Inserted(list, i, b), base)
  {
    hide Good, Upward, After;
    if JoinsPrev(list, i, b) { JoinedGood(list, base, i, b); } else { SeparateGood(list, base, i, b); }
  }

  lemma InOrder(list: seq<Block>, base: int, i: int, b: Block)
    requires Good(list, base) && Fits(list, i, b)
    ensures base <= list[i].at < b.at <= Above(list, b) && (i > 0 ==> base < list[i].at)
  {
    if i > 0 { assert list[0].at + list[0].len < list[i].at; }
  }

  lemma JoinedGood(list: seq<Block>, base: int, i: int, b: Block)
    requires Good(list, base) && Fits(list, i, b) && JoinsPrev(list, i, b)
    ensures Good(Inserted(list, i, b), base)
  {
    hide Spread, Upward, After, Above;
    JoinSpread(list, base, i, b);
    InOrder(list, base, i, b);
    assert i > 1 ==> list[i - 1].at + list[i - 1].len < list[i].at && list[0].at + list[0].len < list[1].at;
    SpreadSlice(list, base, 1, i, base + 1, list[i].at);
    hide Good;
    var up, rest, hi := Upward(list, i, b), After(list, i, b), Above(list, b);
    var c := Block(list[i].at, list[i].len + up.len);
    GoodAround(list, base, i, [c] + rest, c.at, hi);
    assert Inserted(list, i, b) == list[..i] + ([c] + rest);
  }

  lemma SeparateGood(list: seq<Block>, base: int, i: int, b: Block)
    requires Good(list, base) && Fits(list, i, b) && !JoinsPrev(list, i, b)
    ensures Good(Inserted(list, i, b), base)
  {
    hide Spread, Upward, After, Above;
    TailSpread(list, base, i, b, b.at);
    InOrder(list, base, i, b);
    assert i > 0 ==> list[0].at + list[0].len < list[1].at;
    SpreadSlice(list, base, 1, i + 1, base + 1, b.at);
    hide Good;
    var up, rest, hi := Upward(list, i, b), After(list, i, b), Above(list, b);
    GoodAround(list, base, i + 1, [up] + rest, b.at, hi);
    assert Inserted(list, i, b) == list[..i + 1] + ([up] + rest);
  }

  lemma GoodAround(list: seq<Block>, base: int, i: int, s: seq<Block>, mid: int, hi: int)
    requires 0 < i <= |list| && list[0] == Block(base, 0) && base < mid <= hi
    requires Spread(list[1..i], base + 1, mid) && Spread(s, mid, hi)
    ensures Good(list[..i] + s, base)
  {
    hide Spread, Good;
    SpreadCat(list[1..i], s, base + 1, mid, hi);
    assert (list[..i] + s)[1..] == list[1..i] + s;
    GoodIsSpread(list[..i] + s, base, hi);
  }

  lemma JoinSpread(list: seq<Block>, base: int, i: int, b: Block)
    requires Good(list, base) && Fits(list, i, b) && JoinsPrev(list, i, b)
    ensures i > 0
    ensures Spread([Block(list[i].at, list[i].len + Upward(list, i, b).len)] + After(list, i, b),
      list[i].at, Above(list, b))
  {
    var s := [Upward(list, i, b)] + After(list, i, b);
    var s' := [Block(list[i].at, list[i].len + Upward(list, i, b).len)] + After(list, i, b);
    TailSpread(list, base, i, b, list[i].at);
    assert forall j :: 0 < j < |s| ==> s'[j] == s[j];
    assert s[0].at + s[0].len == s'[0].at + s'[0].len;
  }

  lemma InCat(a: seq<Block>, b: seq<Block>, u: int)
    ensures InList(a + b, u) <==> InList(a, u) || InList(b, u)
  {
    if InList(a, u) {
      var i :| 0 <= i < |a| && Covers(a[i], u);
      assert Covers((a + b)[i], u);
    }
    if InList(b, u) {
      var i :| 0 <= i < |b| && Covers(b[i], u);
      assert Covers((a + b)[|a| + i], u);
    }
  }

  lemma InOne(b: Block, u: int)
    ensures InList([b], u) <==> Covers(b, u)
  {
    if Covers(b, u) { assert Covers([b][0], u); }
  }

  /** The units of a list around block i. */
  lemma InParts(list: seq<Block>, i: int, u: int)
    requires 0 <= i < |list|
    ensures InList(list, u) <==> InList(list[..i], u) || Covers(list[i], u) || InList(list[i + 1..], u)
  {
    assert list == list[..i] + ([list[i]] + list[i + 1..]);
    InCat(list[..i], [list[i]] + list[i + 1..], u);
    InCat([list[i]], list[i + 1..], u);
    InOne(list[i], u);
  }

  lemma AfterUnits(list: seq<Block>, i: int, b: Block, u: int)
    requires 0 <= i < |list| && b.len > 0 && (i + 1 < |list| ==> list[i + 1].len > 0)
    ensures Covers(Upward(list, i, b), u) || InList(After(list, i, b), u) <==> Covers(b, u) || InList(list[i + 1..], u)
  {
    if JoinsNext(list, i, b) {
      assert list[i + 1..][0] == list[i + 1] && list[i + 1..][1..] == list[i + 2..] && list[i + 1..][..0] == [];
      InParts(list[i + 1..], 0, u);
    }
  }

  /** Freeing b adds exactly the units of b. */
  lemma InsertedUnits(list: seq<Block>, base: int, i: int, b: Block, u: int)
    requires Good(list, base) && Fits(list, i, b)
    ensures InList(Inserted(list, i, b), u) <==> InList(list, u) || Covers(b, u)
  {
    var up, rest := Upward(list, i, b), After(list, i, b);
    InParts(list, i, u);
    AfterUnits(list, i, b, u);
    InOne(up, u);
    if JoinsPrev(list, i, b) {
      var c := Block(list[i].at, list[i].len + up.len);
      InOne(c, u);
      InCat(list[..i] + [c], rest, u);
      InCat(list[..i], [c], u);
    } else {
      assert list[..i + 1] == list[..i] + [list[i]];
      InOne(list[i], u);
      InCat(list[..i], [list[i]], u);
      InCat(list[..i + 1] + [up], rest, u);
      InCat(list[..i + 1], [up], u);
    }
  }

  // ---------------------------------------------------------------- taking units

  /** The list after taking n units from the end of block i. */
  function Taken(list: seq<Block>, i: int, n: int): seq<Block>
    requires 0 <= i < |list|
  {
    if list[i].len == n then list[..i] + list[i + 1..] else list[i := Block(list[i].at, list[i].len - n)]
  }

  lemma TakenGood(list: seq<Block>, base: int, i: int, n: int)
    requires Good(list, base) && 0 < i < |list| && 0 < n <= list[i].len
    ensures Good(Taken(list, i, n), base)
  {
  }

  lemma ElsewhereNot(list: seq<Block>, base: int, i: int, u: int)
    requires Good(list, base) && 0 < i < |list| && Covers(list[i], u)
    ensures !InList(list[..i], u) && !InList(list[i + 1..], u)
  {
    forall j | 0 <= j < i ensures !Covers(list[..i][j], u) {
      assert list[j].at + list[j].len < list[i].at;
    }
    var rest := list[i + 1..];
    forall j | 0 <= j < |rest| ensures !Covers(rest[j], u) {
      assert list[i].at + list[i].len < list[i + 1 + j].at;
    }
  }

  /** Taking n units removes exactly the last n units of block i. */
  lemma TakenUnits(list: seq<Block>, base: int, i: int, n: int, u: int)
    requires Good(list, base) && 0 < i < |list| && 0 < n <= list[i].len
    ensures var p := list[i].at + list[i].len - n;
      InList(Taken(list, i, n), u) <==> InList(list, u) && !(p <= u < p + n)
  {
    var l := Taken(list, i, n);
    InParts(list, i, u);
    if Covers(list[i], u) { ElsewhereNot(list, base, i, u); }
    if list[i].len == n {
      InCat(list[..i], list[i + 1..], u);
    } else {
      assert l[..i] == list[..i] && l[i + 1..] == list[i + 1..];
      InParts(l, i, u);
    }
  }

  /** A fitting free undoes an allocation: the list is the one before. */
  lemma TakeThenFree(list: seq<Block>, base: int, i: int, n: int, k: int)
    requires Good(list, base) && 0 < i < |list| && 0 < n <= list[i].len
    requires var b := Block(list[i].at + list[i].len - n, n);
      Fits(Taken(list, i, n), k, b)
    ensures Inserted(Taken(list, i, n), k, Block(list[i].at + list[i].len - n, n)) == list
  {
    var b := Block(list[i].at + list[i].len - n, n);
    var l := Taken(list, i, n);
    TakenGood(list, base, i, n);
    InsertedGood(l, base, k, b);
    forall u ensures InList(Inserted(l, k, b), u) <==> InList(list, u) {
      InsertedUnits(l, base, k, b, u);
      TakenUnits(list, base, i, n, u);
      if Covers(b, u) { assert Covers(list[i], u); }
    }
    Canonical(Inserted(l, k, b), list, base);
  }
}
