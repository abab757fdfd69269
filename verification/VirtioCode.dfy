/** The loops of virtio_disk.c over the free[] and desc[] arrays, proved against Virtio's functions. */
module VirtioCode {
  import opened Virtio

  /** free is f with the descriptors l taken. */
  ghost predicate FreeBut(f: seq<bool>, free: seq<bool>, l: seq<int>) {
    |free| == |f| && forall k :: 0 <= k < |f| ==> free[k] == (f[k] && k !in l)
  }

  /** idx are the first descriptors of AllocMany(f, 3), free is f without them, and the rest will follow. */
  ghost predicate Progress(f: seq<bool>, free: seq<bool>, idx: seq<int>) {
    && |idx| <= 3 && FreeBut(f, free, idx) && idx + AllocMany(free, 3 - |idx|) == AllocMany(f, 3)
  }

  /** AllocMany, one descriptor at a time. */
  lemma ManyNext(free: seq<bool>, n: nat)
    requires n > 0
    ensures match AllocDesc(free, 0)
      case None => AllocMany(free, n) == []
      case Some(a) => AllocMany(free, n) == [a] + AllocMany(free[a := false], n - 1)
  {
  }

  lemma Regroup(idx: seq<int>, a: int, rest: seq<int>)
    ensures idx + ([a] + rest) == idx + [a] + rest
  {
  }

  /** One round of alloc3_desc's loop. */
  lemma AllocRound(f: seq<bool>, free: seq<bool>, idx: seq<int>)
    requires Progress(f, free, idx) && |idx| < 3
    ensures match AllocDesc(free, 0)
      case None => idx == AllocMany(f, 3)
      case Some(a) => Progress(f, free[a := false], idx + [a])
  {
    hide AllocMany, AllocDesc, FreeBut;
    var n := 3 - |idx|;
    ManyNext(free, n);
    match AllocDesc(free, 0)
    case None =>
      assert idx + [] == idx;
    case Some(a) =>
      OneMore(f, free, idx, a);
      Regroup(idx, a, AllocMany(free[a := false], n - 1));
  }

  lemma OneMore(f: seq<bool>, free: seq<bool>, idx: seq<int>, a: int)
    requires FreeBut(f, free, idx) && 0 <= a < |free| && free[a]
    ensures FreeBut(f, free[a := false], idx + [a])
  {
  }

  lemma NoneYet(f: seq<bool>)
    ensures Progress(f, f, [])
  {
    assert [] + AllocMany(f, 3) == AllocMany(f, 3);
  }

  lemma AllThree(f: seq<bool>, free: seq<bool>, idx: seq<int>)
    requires Progress(f, free, idx) && |idx| == 3
    ensures idx == AllocMany(f, 3) && FreeBut(f, free, idx)
  {
  }

  /** Descriptors that were in use stay as they are. */
  ghost predicate InUseSame(f: seq<bool>, desc: seq<Desc>, desc': seq<Desc>) {
    |desc'| == |desc| == |f| && forall k :: 0 <= k < |f| && !f[k] ==> desc'[k] == desc[k]
  }

  /** What alloc3_desc leaves is what posting a request expects. */
  lemma ThreeTaken(f: seq<bool>, free: seq<bool>)
    requires Alloc3(f).Some? && FreeBut(f, free, AllocMany(f, 3))
    ensures var t := Alloc3(f).value; free == f[t.i0 := false][t.i1 := false][t.i2 := false]
  {
    var l, t := AllocMany(f, 3), Alloc3(f).value;
    assert l == [t.i0, t.i1, t.i2];
    hide AllocMany, AllocDesc, Alloc3;
    assert forall k :: k in l <==> k == t.i0 || k == t.i1 || k == t.i2;
  }

  class Queue {
    const free: array<bool>
    const desc: array<Desc>

    ghost predicate Valid()
    {
      free.Length == NUM && desc.Length == NUM
    }

    constructor ()
      ensures Valid() && fresh(free) && fresh(desc)
      ensures free[..] == seq(NUM, i => true) && desc[..] == seq(NUM, i => NO_DESC)
    {
      free := new bool[NUM](i => true);
      desc := new Desc[NUM](i => NO_DESC);
    }

    /** alloc_desc: -1 exactly if none is free, else the lowest free one, now taken. */
    method Alloc() returns (i: int)
      requires Valid()
      modifies free
      ensures AllocDesc(old(free[..]), 0) == if i < 0 then None else Some(i)
      ensures free[..] == if 0 <= i < NUM then old(free[..])[i := false] else old(free[..])
      ensures i < NUM
    {
      i := 0;
      while i < NUM
        invariant 0 <= i <= NUM && free[..] == old(free[..])
        invariant AllocDesc(free[..], i) == AllocDesc(free[..], 0)
      {
        if free[i] {
          free[i] := false;
          return;
        }
        i := i + 1;
      }
      i := -1;
    }

    /** free_desc: refuses a descriptor out of range or already free, and then changes nothing. */
    method Free(i: nat) returns (ok: bool)
      requires Valid()
      modifies free, desc
      ensures var r := FreeDesc(old(free[..]), old(desc[..]), i);
        ok == r.Some? && (ok ==> (free[..], desc[..]) == r.value)
      ensures !ok ==> free[..] == old(free[..]) && desc[..] == old(desc[..])
    {
      if i >= NUM { return false; }
      if free[i] { return false; }
      desc[i] := NO_DESC;
      free[i] := true;
      ok := true;
    }

    /** alloc3_desc: all three or none; a failed attempt gives back what it took. */
    method Alloc3Desc() returns (r: int, idx: seq<int>)
      requires Valid()
      modifies free, desc
      ensures r == 0 || r == -1
      ensures r == 0 <==> |AllocMany(old(free[..]), 3)| == 3
      ensures r == 0 ==> idx == AllocMany(old(free[..]), 3) && FreeBut(old(free[..]), free[..], idx)
      ensures r == 0 ==> desc[..] == old(desc[..])
      ensures r == -1 ==> free[..] == old(free[..]) && InUseSame(old(free[..]), old(desc[..]), desc[..])
    {
      hide AllocMany, AllocDesc, Progress, FreeBut, InUseSame;
      ghost var f := free[..];
      idx := [];
      NoneYet(f);
      while |idx| < 3
        invariant |idx| <= 3 && Progress(f, free[..], idx) && desc[..] == old(desc[..])
        decreases 3 - |idx|
      {
        AllocRound(f, free[..], idx);
        var i := Alloc();
        if i < 0 {
          Undo(idx, f);
          return -1, idx;
        }
        idx := idx + [i];
      }
      AllThree(f, free[..], idx);
      r := 0;
    }

    /** The way out of alloc3_desc when an allocation fails. */
    method Undo(idx: seq<int>, ghost f: seq<bool>)
      requires Valid() && |f| == NUM && Progress(f, free[..], idx) && idx == AllocMany(f, 3)
      modifies free, desc
      ensures free[..] == f && InUseSame(f, old(desc[..]), desc[..])
    {
      GiveBack(idx, f);
      assert forall k :: 0 <= k < NUM && !f[k] ==> k !in idx;
    }

    /** alloc3_desc's inner loop, when an allocation fails: idx holds the ones taken so far. */
    method GiveBack(idx: seq<int>, ghost f: seq<bool>)
      requires Valid() && |f| == NUM
      requires forall k :: 0 <= k < |idx| ==> 0 <= idx[k] < NUM && f[idx[k]]
      requires forall j, k :: 0 <= j < k < |idx| ==> idx[j] != idx[k]
      requires FreeBut(f, free[..], idx)
      modifies free, desc
      ensures free[..] == f
      ensures forall k :: 0 <= k < NUM && k !in idx ==> desc[k] == old(desc[k])
    {
      var j := 0;
      while j < |idx|
        invariant 0 <= j <= |idx|
        invariant FreeBut(f, free[..], idx[j..])
        invariant forall k :: 0 <= k < NUM && k !in idx ==> desc[k] == old(desc[k])
      {
        assert idx[j..] == [idx[j]] + idx[j + 1..];
        var ok := Free(idx[j]);
        j := j + 1;
      }
    }

    /** free_chain: the loop that follows the next flags; false stands for the panic in free_desc. */
    method FreeChainFrom(start: nat) returns (ok: bool)
      requires Valid()
      modifies free, desc
      ensures var r := FreeChain(old(free[..]), old(desc[..]), start);
        ok == r.Some? && (ok ==> (free[..], desc[..]) == r.value)
    {
      var i: nat := start;
      while true
        invariant FreeChain(free[..], desc[..], i) == FreeChain(old(free[..]), old(desc[..]), start)
        decreases NUM - FreeCount(free[..])
      {
        if i >= NUM { return false; }
        var d := desc[i];
        ghost var f := free[..];
        ok := Free(i);
        if !ok { return; }
        FreeCountUpdate(f, i, true);
        FreeCountBound(free[..]);
        if d.more { i := d.next; } else { return; }
      }
    }
  }
}
