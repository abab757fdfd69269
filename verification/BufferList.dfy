/**
  The buffer cache of bio.c as a data structure: a fixed array of buffers on a
  circular doubly linked list, most recently used first.  Buffers are indices;
  index NBUF is bcache.head.
 */
module BufferList {
  import opened Params

  const HEAD := NBUF

  /** Element k + 1 of the circular list `ring`. */
  function Succ(ring: seq<int>, k: nat): int
    requires k < |ring|
  {
    if k + 1 < |ring| then ring[k + 1] else ring[0]
  }

  ghost predicate Linked(next: seq<int>, prev: seq<int>, a: int, b: int) {
    0 <= a < |next| && 0 <= b < |prev| && next[a] == b && prev[b] == a
  }

  ghost predicate Ring(ring: seq<int>) {
    && |ring| >= 1 && ring[0] == HEAD
    && (forall k :: 0 <= k < |ring| ==> 0 <= ring[k] <= NBUF)
    && (forall j, k :: 0 <= j < k < |ring| ==> ring[j] != ring[k])
  }

  /** next and prev encode the circular list `ring`, which starts at the head. */
  ghost predicate Links(next: seq<int>, prev: seq<int>, ring: seq<int>) {
    && |next| == |prev| == NBUF + 1 && Ring(ring)
    && (forall k {:trigger Succ(ring, k)} :: 0 <= k < |ring| ==> Linked(next, prev, ring[k], Succ(ring, k)))
  }

  function Removed(ring: seq<int>, k: nat): seq<int>
    requires k < |ring|
  {
    ring[..k] + ring[k + 1..]
  }

  function PushedFront(ring: seq<int>, b: int): seq<int>
    requires |ring| >= 1
  {
    [ring[0], b] + ring[1..]
  }

  lemma RemovedIsRing(ring: seq<int>, k: nat)
    requires Ring(ring) && 0 < k < |ring|
    ensures Ring(Removed(ring, k)) && ring[k] !in Removed(ring, k)
    ensures forall j :: 0 <= j < |ring| - 1 ==> Removed(ring, k)[j] == ring[if j < k then j else j + 1]
  {
  }

  /** Taking ring[k] out of the list: two assignments join its neighbours. */
  lemma Unlink(next: seq<int>, prev: seq<int>, ring: seq<int>, k: nat)
    requires Links(next, prev, ring) && 0 < k < |ring|
    ensures var b := ring[k];
      0 <= next[b] <= NBUF && 0 <= prev[b] <= NBUF && next[b] != b && prev[b] != b &&
      Links(next[prev[b] := next[b]], prev[next[b] := prev[b]], Removed(ring, k))
  {
    var b := ring[k];
    var r := Removed(ring, k);
    RemovedIsRing(ring, k);
    assert Linked(next, prev, ring[k - 1], Succ(ring, k - 1)) && Linked(next, prev, ring[k], Succ(ring, k));
    forall j | 0 <= j < |r| ensures Linked(next[prev[b] := next[b]], prev[next[b] := prev[b]], r[j], Succ(r, j)) {
      var m := if j < k then j else j + 1;
      assert Linked(next, prev, ring[m], Succ(ring, m));
      SuccRemoved(ring, k, j);
    }
  }

  lemma SuccRemoved(ring: seq<int>, k: nat, j: nat)
    requires Ring(ring) && 0 < k < |ring| && j < |ring| - 1
    ensures var r := Removed(ring, k);
      Succ(r, j) == if j == k - 1 then Succ(ring, k) else Succ(ring, if j < k then j else j + 1)
    ensures j != k - 1 ==> Succ(Removed(ring, k), j) != Succ(ring, k)
  {
  }

  lemma Link(next: seq<int>, prev: seq<int>, ring: seq<int>, b: int)
    requires Links(next, prev, ring) && 0 <= b < NBUF && b !in ring
    ensures 0 <= next[HEAD] <= NBUF && next[HEAD] != b
    ensures Links(next[b := next[HEAD]][HEAD := b], prev[b := HEAD][next[HEAD] := b], PushedFront(ring, b))
  {
    var r := PushedFront(ring, b);
    assert Linked(next, prev, ring[0], Succ(ring, 0));
    var n', p' := next[b := next[HEAD]][HEAD := b], prev[b := HEAD][next[HEAD] := b];
    forall j | 0 <= j < |r| ensures Linked(n', p', r[j], Succ(r, j)) {
      if j >= 2 {
        assert Linked(next, prev, ring[j - 1], Succ(ring, j - 1));
        assert r[j] == ring[j - 1] && Succ(r, j) == Succ(ring, j - 1);
      }
    }
  }

  /** The list is sorted by when its buffers were last moved to the front, latest first. */
  ghost predicate Sorted(ring: seq<int>, stamp: map<int, int>, now: int) {
    && (forall k :: 0 < k < |ring| ==> ring[k] in stamp && stamp[ring[k]] < now)
    && (forall j, k :: 0 < j < k < |ring| ==> stamp[ring[j]] > stamp[ring[k]])
  }

  ghost predicate OnList(ring: seq<int>, i: int) {
    exists k :: 0 < k < |ring| && ring[k] == i
  }

  /** The list holds exactly the first n buffers. */
  ghost predicate Holds(ring: seq<int>, n: nat) {
    && (forall k :: 0 < k < |ring| ==> 0 <= ring[k] < n)
    && (forall i :: 0 <= i < n ==> OnList(ring, i))
  }

  ghost predicate Order(ring: seq<int>, stamp: map<int, int>, now: int, n: nat) {
    Ring(ring) && Sorted(ring, stamp, now) && Holds(ring, n)
  }

  lemma MovedKeepsOrder(ring: seq<int>, k: nat, stamp: map<int, int>, now: int)
    requires Order(ring, stamp, now, NBUF) && 0 < k < |ring|
    ensures Order(PushedFront(Removed(ring, k), ring[k]), stamp[ring[k] := now], now + 1, NBUF)
  {
    RemovedIsRing(ring, k);
    assert Sorted(Removed(ring, k), stamp, now);
    PushedIsSorted(Removed(ring, k), ring[k], stamp, now);
    MovedHolds(ring, k);
  }

  lemma MovedHolds(ring: seq<int>, k: nat)
    requires Ring(ring) && Holds(ring, NBUF) && 0 < k < |ring|
    ensures Holds(PushedFront(Removed(ring, k), ring[k]), NBUF)
  {
    var r := PushedFront(Removed(ring, k), ring[k]);
    assert forall j :: 2 <= j < |r| ==> r[j] == ring[if j <= k then j - 1 else j];
    assert r[1] == ring[k] && |r| == |ring|;
    hide PushedFront, Removed;
    forall i | 0 <= i < NBUF ensures OnList(r, i) {
      assert OnList(ring, i);
      var j :| 0 < j < |ring| && ring[j] == i;
      assert r[if j == k then 1 else if j < k then j + 1 else j] == i;
    }
    forall j | 0 < j < |r| ensures 0 <= r[j] < NBUF { if j > 1 { assert r[j] == ring[if j <= k then j - 1 else j]; } }
  }

  lemma PushedIsSorted(ring: seq<int>, b: int, stamp: map<int, int>, now: int)
    requires Ring(ring) && Sorted(ring, stamp, now) && 0 <= b < NBUF && b !in ring
    ensures Ring(PushedFront(ring, b)) && Sorted(PushedFront(ring, b), stamp[b := now], now + 1)
  {
    var r := PushedFront(ring, b);
    assert forall j :: 2 <= j < |r| ==> r[j] == ring[j - 1];
  }

  lemma AddedKeepsOrder(ring: seq<int>, stamp: map<int, int>, now: int, b: nat)
    requires Order(ring, stamp, now, b) && b < NBUF
    ensures b !in ring
    ensures Order(PushedFront(ring, b), stamp[b := now], now + 1, b + 1)
  {
    var r := PushedFront(ring, b);
    assert forall k :: 0 <= k < |ring| ==> ring[k] != b;
    PushedIsSorted(ring, b, stamp, now);
    assert forall j :: 2 <= j < |r| ==> r[j] == ring[j - 1];
    forall i | 0 <= i < b + 1 ensures OnList(r, i) {
      if i < b {
        assert OnList(ring, i);
        var j :| 0 < j < |ring| && ring[j] == i;
        assert r[j + 1] == i;
      } else {
        assert r[1] == i;
      }
    }
  }

  /** If only later elements than k are excluded, ring[k] was moved to the front before all the rest. */
  lemma LastIsOldest(ring: seq<int>, stamp: map<int, int>, now: int, k: nat, i: int)
    requires Order(ring, stamp, now, NBUF) && 0 < k < |ring| && 0 <= i < NBUF && i != ring[k]
    requires forall j :: k < j < |ring| ==> ring[j] != i
    ensures i in stamp && ring[k] in stamp && stamp[ring[k]] < stamp[i]
  {
    assert OnList(ring, i);
  }

  lemma FrontIsNewest(ring: seq<int>, stamp: map<int, int>, now: int, i: int)
    requires Order(ring, stamp, now, NBUF) && 0 <= i < NBUF
    ensures i in stamp && stamp[i] < now
  {
    assert OnList(ring, i);
  }

  lemma PlaceOf(ring: seq<int>, stamp: map<int, int>, now: int, b: int) returns (k: int)
    requires Order(ring, stamp, now, NBUF) && 0 <= b < NBUF
    ensures 0 < k < |ring| && ring[k] == b && b !in Removed(ring, k)
  {
    assert OnList(ring, b);
    k :| 0 < k < |ring| && ring[k] == b;
    RemovedIsRing(ring, k);
  }

  datatype Got = Got(i: int) | PanicNoBuffers

  datatype Buf = Buf(dev: int, blockno: int, valid: bool, refcnt: int)

  class BCache {
    const next: array<int>
    const prev: array<int>
    const buf: array<Buf>
    ghost var ring: seq<int>       // the list, from the head
    ghost var now: int             // counts the moves to the front
    ghost var stamp: map<int, int> // when each buffer was last moved to the front

    /** At most one buffer per block of a device; device 0 is none. */
    ghost predicate OnePerBlock()
      reads buf
    {
      forall i, j :: 0 <= i < j < buf.Length && buf[i].dev != 0 ==>
        buf[i].dev != buf[j].dev || buf[i].blockno != buf[j].blockno
    }

    ghost predicate Valid()
      reads this, next, prev, buf
    {
      && OnePerBlock()
      && next != prev && next.Length == NBUF + 1 && prev.Length == NBUF + 1 && buf.Length == NBUF
      && Links(next[..], prev[..], ring) && Order(ring, stamp, now, NBUF)
    }

    /** Buffer i caches the block. */
    predicate Is(i: int, d: int, b: int)
      reads buf
      requires 0 <= i < buf.Length
    {
      buf[i].dev == d && buf[i].blockno == b
    }

    /** Buffer i was moved to the front before buffer j. */
    ghost predicate Older(i: int, j: int)
      reads this
    {
      i in stamp && j in stamp && stamp[i] < stamp[j]
    }

    /** binit(): every buffer pushed to the front in turn. */
    constructor ()
      ensures Valid() && forall i :: 0 <= i < NBUF ==> buf[i] == Buf(0, 0, false, 0)
    {
      next := new int[NBUF + 1](i => HEAD);
      prev := new int[NBUF + 1](i => HEAD);
      buf := new Buf[NBUF](i => Buf(0, 0, false, 0));
      ring := [HEAD];
      stamp := map[];
      now := 0;
      new;
      var b := 0;
      while b < NBUF
        invariant 0 <= b <= NBUF && now == b
        invariant Links(next[..], prev[..], ring) && Order(ring, stamp, now, b)
        invariant forall i :: 0 <= i < NBUF ==> buf[i] == Buf(0, 0, false, 0)
      {
        AddedKeepsOrder(ring, stamp, now, b);
        PushFront(b, ring);
        b := b + 1;
      }
    }

    /** The four assignments that put b first on the list. */
    method PushFront(b: int, ghost r: seq<int>)
      requires next != prev && next.Length == NBUF + 1 && prev.Length == NBUF + 1
      requires Links(next[..], prev[..], r) && 0 <= b < NBUF && b !in r
      modifies next, prev, this`ring, this`stamp, this`now
      ensures ring == PushedFront(r, b) && stamp == old(stamp)[b := old(now)] && now == old(now) + 1
      ensures Links(next[..], prev[..], ring)
    {
      Link(next[..], prev[..], r, b);
      ghost var n0, p0 := next[..], prev[..];
      next[b] := next[HEAD];
      prev[b] := HEAD;
      prev[next[HEAD]] := b;
      next[HEAD] := b;
      assert next[..] == n0[b := n0[HEAD]][HEAD := b] && prev[..] == p0[b := HEAD][n0[HEAD] := b];
      ring, stamp, now := PushedFront(r, b), stamp[b := now], now + 1;
    }

    /** bget's forward scan: the buffer that caches the block, or HEAD if none does. */
    method FindCached(d: int, b: int) returns (i: int)
      requires Valid()
      ensures i == HEAD || (0 <= i < NBUF && Is(i, d, b))
      ensures i == HEAD ==> forall j :: 0 <= j < NBUF ==> !Is(j, d, b)
    {
      i := next[HEAD];
      ghost var k := 1;
      assert Linked(next[..], prev[..], ring[0], Succ(ring, 0));
      while i != HEAD
        invariant 1 <= k <= |ring| && i == (if k < |ring| then ring[k] else HEAD)
        invariant forall j :: 0 < j < k ==> !Is(ring[j], d, b)
        decreases |ring| - k
      {
        if buf[i].dev == d && buf[i].blockno == b { return; }
        assert Linked(next[..], prev[..], ring[k], Succ(ring, k));
        i := next[i];
        k := k + 1;
      }
      forall j | 0 <= j < NBUF ensures !Is(j, d, b) { assert OnList(ring, j); }
    }

    /** bget's backward scan: the unused buffer moved to the front longest ago, or HEAD if all are in use. */
    method FindUnused() returns (i: int)
      requires Valid()
      ensures i == HEAD || (0 <= i < NBUF && buf[i].refcnt == 0)
      ensures i == HEAD ==> forall j :: 0 <= j < NBUF ==> buf[j].refcnt != 0
      ensures i != HEAD ==> forall j :: 0 <= j < NBUF && j != i && buf[j].refcnt == 0 ==> Older(i, j)
    {
      i := prev[HEAD];
      ghost var k := |ring| - 1;
      assert Linked(next[..], prev[..], ring[k], Succ(ring, k));
      while i != HEAD
        invariant 0 <= k < |ring| && i == ring[k]
        invariant forall j :: k < j < |ring| ==> buf[ring[j]].refcnt != 0
        decreases k
      {
        if buf[i].refcnt == 0 {
          forall j | 0 <= j < NBUF && j != i && buf[j].refcnt == 0 ensures Older(i, j) {
            LastIsOldest(ring, stamp, now, k, j);
          }
          return;
        }
        assert Linked(next[..], prev[..], ring[k - 1], Succ(ring, k - 1));
        i := prev[i];
        k := k - 1;
      }
      forall j | 0 <= j < NBUF ensures buf[j].refcnt != 0 { assert OnList(ring, j); }
    }

    /**
      bget: a hit takes one more reference; a miss recycles the unused buffer that was
      moved to the front longest ago; it panics exactly if there is none.
     */
    method Bget(d: int, b: int) returns (r: Got)
      requires Valid()
      modifies buf
      ensures Valid() && OnePerBlock()
      ensures r.PanicNoBuffers? <==> forall i :: 0 <= i < NBUF ==> !old(Is(i, d, b)) && old(buf[i].refcnt) != 0
      ensures r.PanicNoBuffers? ==> buf[..] == old(buf[..])
      ensures r.Got? ==> 0 <= r.i < NBUF && Is(r.i, d, b)
      ensures r.Got? && d != 0 ==> forall j :: 0 <= j < NBUF && Is(j, d, b) ==> j == r.i
      ensures r.Got? && old(Is(r.i, d, b)) ==>
        buf[..] == old(buf[..])[r.i := old(buf[r.i]).(refcnt := old(buf[r.i].refcnt) + 1)]
      ensures r.Got? && !old(Is(r.i, d, b)) ==>
        && (forall i :: 0 <= i < NBUF ==> !old(Is(i, d, b)))
        && old(buf[r.i].refcnt) == 0
        && (forall i :: 0 <= i < NBUF && i != r.i && old(buf[i].refcnt) == 0 ==> Older(r.i, i))
        && buf[..] == old(buf[..])[r.i := Buf(d, b, false, 1)]
    {
      var i := FindCached(d, b);
      if i != HEAD {
        buf[i] := buf[i].(refcnt := buf[i].refcnt + 1);
        return Got(i);
      }
      forall j | 0 <= j < NBUF ensures !old(Is(j, d, b)) { assert !Is(j, d, b); }
      i := FindUnused();
      assert i == HEAD ==> forall j :: 0 <= j < NBUF ==> old(buf[j].refcnt) != 0;
      if i != HEAD {
        buf[i] := Buf(d, b, false, 1);
        forall j | 0 <= j < NBUF && j != i ensures !Is(j, d, b) { assert !old(Is(j, d, b)); }
        assert OnePerBlock() by {
          forall m, n | 0 <= m < n < NBUF && buf[m].dev != 0
            ensures buf[m].dev != buf[n].dev || buf[m].blockno != buf[n].blockno
          {
            assert (m == i || n == i) ==> !Is(m + n - i, d, b);
          }
        }
        return Got(i);
      }
      return PanicNoBuffers;
    }

    /** brelse, after releasesleep: the last reference dropped moves the buffer to the front. */
    method Brelse(b: int)
      requires Valid() && 0 <= b < NBUF
      modifies this, next, prev, buf
      ensures Valid() && buf[..] == old(buf[..])[b := old(buf[b]).(refcnt := old(buf[b].refcnt) - 1)]
      ensures buf[b].refcnt != 0 ==> ring == old(ring) && stamp == old(stamp)
      ensures buf[b].refcnt == 0 ==> stamp == old(stamp)[b := old(now)]
      ensures buf[b].refcnt == 0 ==> forall i :: 0 <= i < NBUF && i != b ==> Older(i, b)
    {
      buf[b] := buf[b].(refcnt := buf[b].refcnt - 1);
      if buf[b].refcnt == 0 { MoveToFront(b); }
    }

    method MoveToFront(b: int)
      requires Valid() && 0 <= b < NBUF
      modifies this, next, prev
      ensures Valid() && stamp == old(stamp)[b := old(now)]
      ensures forall i :: 0 <= i < NBUF && i != b ==> Older(i, b)
    {
      hide OnePerBlock, Links, Order, Removed, PushedFront;
      ghost var k := PlaceOf(ring, stamp, now, b);
      MovedKeepsOrder(ring, k, stamp, now);
      forall i | 0 <= i < NBUF ensures i in stamp && stamp[i] < now { FrontIsNewest(ring, stamp, now, i); }
      Detach(b, k);
      PushFront(b, Removed(ring, k));
    }

    /** The two assignments that take b, at position k, out of the list. */
    method Detach(b: int, ghost k: nat)
      requires next != prev && next.Length == NBUF + 1 && prev.Length == NBUF + 1
      requires Links(next[..], prev[..], ring) && 0 < k < |ring| && ring[k] == b
      modifies next, prev
      ensures Links(next[..], prev[..], Removed(ring, k))
    {
      Unlink(next[..], prev[..], ring, k);
      ghost var n0, p0 := next[..], prev[..];
      prev[next[b]] := prev[b];
      next[prev[b]] := next[b];
      assert next[..] == n0[p0[b] := n0[b]] && prev[..] == p0[n0[b] := p0[b]];
    }
  }
}
