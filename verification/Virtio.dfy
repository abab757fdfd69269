/**
  The virtio disk driver (virtio_disk.c) and a device that follows sections 2.6
  (split virtqueues) and 5.2 (block device) of Virtio 1.1.

  Each driver step is a section run under vdisk_lock; the device takes requests
  in ring order and completes them in any order, at any time.
 */
module Virtio {
  const NUM := 8
  const WRAP := 0x1_0000

  import Blocks
  type Block = Blocks.Block

  datatype Option<T> = None | Some(value: T)

  /** What a descriptor points at: a command header, a buffer's data or a status byte. */
  datatype Addr = Null | OpAt(i: int) | DataOf(x: int) | StatusAt(i: int)

  /** struct virtq_desc, with the flags VRING_DESC_F_WRITE and VRING_DESC_F_NEXT. */
  datatype Desc = Desc(addr: Addr, len: int, write: bool, more: bool, next: nat)

  const NO_DESC := Desc(Null, 0, false, false, 0)

  /** struct virtio_blk_req: VIRTIO_BLK_T_OUT or _IN, and the sector. */
  datatype Op = Op(out: bool, sector: int)

  datatype Vbuf = Vbuf(blockno: int, data: Block, owned: bool)

  datatype Phase = Posted | Taken | Done | Finished

  /** The request whose chain starts at this descriptor: virtio_disk_rw(x, write) with idx[1], idx[2]. */
  datatype Slot = Empty | Req(x: int, write: bool, i1: int, i2: int, phase: Phase)

  datatype State = State(
    disk: seq<Block>, bufs: seq<Vbuf>,
    free: seq<bool>, desc: seq<Desc>, ops: seq<Op>, infoBuf: seq<int>, infoStatus: seq<int>,
    availRing: seq<int>, availIdx: int, usedRing: seq<int>, usedIdx: int,
    seenIdx: int,                                  // disk.used_idx
    deviceIdx: int,                                // how far the device has read the avail ring
    slots: seq<Slot>,
    posted: nat, taken: nat, done: nat, seen: nat) // the four indices, without wrapping

  // ---------------------------------------------------------------- descriptors

  /** alloc_desc: the lowest free descriptor at or after i. */
  function AllocDesc(free: seq<bool>, i: nat): (r: Option<nat>)
    ensures r.Some? ==> i <= r.value < |free| && free[r.value] && forall j :: i <= j < r.value ==> !free[j]
    ensures r.None? ==> forall j :: i <= j < |free| ==> !free[j]
    decreases |free| - i
  {
    if i >= |free| then None else if free[i] then Some(i) else AllocDesc(free, i + 1)
  }

  datatype Three = Three(i0: nat, i1: nat, i2: nat)

  predicate Fits(t: Three) {
    t.i0 < NUM && t.i1 < NUM && t.i2 < NUM && t.i0 != t.i1 && t.i0 != t.i2 && t.i1 != t.i2
  }

  /** Repeated alloc_desc: up to n descriptors, each the lowest one still free. */
  function AllocMany(free: seq<bool>, n: nat): (r: seq<nat>)
    ensures |r| <= n
    ensures forall k :: 0 <= k < |r| ==> r[k] < |free| && free[r[k]]
    ensures forall j, k :: 0 <= j < k < |r| ==> r[j] != r[k]
    decreases n
  {
    if n == 0 then [] else
      match AllocDesc(free, 0)
      case None => []
      case Some(a) => [a] + AllocMany(free[a := false], n - 1)
  }

  /** alloc3_desc: three free descriptors, or none taken. */
  function Alloc3(free: seq<bool>): (r: Option<Three>)
    ensures r.Some? ==>
      var t := r.value;
      && t.i0 < |free| && t.i1 < |free| && t.i2 < |free| && t.i0 != t.i1 && t.i0 != t.i2 && t.i1 != t.i2
      && free[t.i0] && free[t.i1] && free[t.i2]
  {
    var l := AllocMany(free, 3);
    if |l| == 3 then Some(Three(l[0], l[1], l[2])) else None
  }

  function FreeCount(free: seq<bool>): nat {
    if free == [] then 0 else (if free[0] then 1 else 0) + FreeCount(free[1..])
  }

  /** free_desc: None is the panic on a descriptor out of range or already free. */
  function FreeDesc(free: seq<bool>, desc: seq<Desc>, i: nat): (r: Option<(seq<bool>, seq<Desc>)>)
    requires |free| == |desc| == NUM
    ensures r.Some? <==> i < NUM && !free[i]
    ensures r.Some? ==> |r.value.0| == |r.value.1| == NUM
  {
    if i >= NUM || free[i] then None else Some((free[i := true], desc[i := NO_DESC]))
  }

  lemma {:induction false} FreeCountUpdate(free: seq<bool>, i: int, v: bool)
    requires 0 <= i < |free|
    ensures FreeCount(free[i := v]) == FreeCount(free) - (if free[i] then 1 else 0) + (if v then 1 else 0)
  {
    if i > 0 {
      assert free[i := v][1..] == free[1..][i - 1 := v];
      FreeCountUpdate(free[1..], i - 1, v);
    }
  }

  lemma {:induction false} FreeCountBound(free: seq<bool>)
    ensures FreeCount(free) <= |free|
  {
    if free != [] { FreeCountBound(free[1..]); }
  }

  /** free_chain: follow the next flags; it always stops, since each descriptor it frees was not free. */
  function FreeChain(free: seq<bool>, desc: seq<Desc>, i: nat): (r: Option<(seq<bool>, seq<Desc>)>)
    requires |free| == |desc| == NUM
    ensures r.Some? ==> |r.value.0| == |r.value.1| == NUM
    decreases NUM - FreeCount(free)
  {
    FreeCountBound(free);
    match FreeDesc(free, desc, i)
    case None => None
    case Some(p) =>
      FreeCountUpdate(free, i, true);
      FreeCountBound(p.0);
      if desc[i].more then FreeChain(p.0, p.1, desc[i].next) else Some(p)
  }

  // ---------------------------------------------------------------- steps

  datatype Step =
    | Post(x: int, write: bool)       // virtio_disk_rw up to the notification
    | Take                            // the device reads the next avail entry
    | Complete(h: int)                // the device performs a request it has taken
    | Handle                          // one round of virtio_disk_intr's loop
    | Return(h: int)                  // virtio_disk_rw finds b->disk clear
    | Touch(x: int, data: Block)      // kernel code changes a buffer no request uses

  predicate InFlight(s: State, h: int) { 0 <= h < |s.slots| && s.slots[h].Req? }

  predicate Sized(s: State) {
    && |s.free| == |s.desc| == |s.ops| == |s.infoBuf| == |s.infoStatus| == NUM
    && |s.availRing| == |s.usedRing| == |s.slots| == NUM
    && |s.disk| <= 0x8000_0000
  }

  /** No request uses buffer x or its block: its sleep lock is free, and the cache holds a block once. */
  ghost predicate Unused(s: State, x: int)
    requires 0 <= x < |s.bufs|
  {
    forall h :: InFlight(s, h) && 0 <= s.slots[h].x < |s.bufs| ==>
      s.slots[h].x != x && s.bufs[s.slots[h].x].blockno != s.bufs[x].blockno
  }

  ghost predicate Enabled(s: State, step: Step) {
    Sized(s) &&
    match step
    case Post(x, write) =>
      && 0 <= x < |s.bufs| && 0 <= s.bufs[x].blockno < |s.disk| && Unused(s, x) && Alloc3(s.free).Some?
    case Take =>
      && s.deviceIdx != s.availIdx && InFlight(s, s.availRing[s.deviceIdx % NUM])
    case Complete(h) =>
      && InFlight(s, h) && s.slots[h].phase == Taken && Obeyable(s, h)
    case Handle =>
      && s.seenIdx != s.usedIdx
      && InFlight(s, s.usedRing[s.seenIdx % NUM])
      && 0 <= s.infoBuf[s.usedRing[s.seenIdx % NUM]] < |s.bufs|
    case Return(h) =>
      && InFlight(s, h) && 0 <= s.slots[h].x < |s.bufs| && !s.bufs[s.slots[h].x].owned
      && FreeChain(s.free, s.desc, h).Some?
    case Touch(x, data) =>
      && 0 <= x < |s.bufs| && Unused(s, x)
  }

  /** The chain at h is one a block device can carry out. */
  predicate Obeyable(s: State, h: int)
    requires Sized(s) && 0 <= h < NUM
  {
    var d0 := s.desc[h];
    && d0.addr.OpAt? && 0 <= d0.addr.i < NUM && d0.more && 0 <= d0.next < NUM
    && var d1 := s.desc[d0.next];
    && d1.addr.DataOf? && 0 <= d1.addr.x < |s.bufs| && d1.more && 0 <= d1.next < NUM
    && s.desc[d1.next].addr.StatusAt? && 0 <= s.desc[d1.next].addr.i < NUM
    && 0 <= s.ops[d0.addr.i].sector / 2 < |s.disk|
  }

  function Posting(s: State, x: int, write: bool, t: Three): State
    requires Sized(s) && 0 <= x < |s.bufs| && Fits(t)
  {
    s.(free := s.free[t.i0 := false][t.i1 := false][t.i2 := false],
       ops := s.ops[t.i0 := Op(write, s.bufs[x].blockno * 2 % 0x1_0000_0000)],
       desc := s.desc[t.i0 := Desc(OpAt(t.i0), 16, false, true, t.i1)]
                     [t.i1 := Desc(DataOf(x), 1024, !write, true, t.i2)]
                     [t.i2 := Desc(StatusAt(t.i0), 1, true, false, 0)],
       infoStatus := s.infoStatus[t.i0 := 0xff],
       bufs := s.bufs[x := s.bufs[x].(owned := true)],
       infoBuf := s.infoBuf[t.i0 := x],
       availRing := s.availRing[s.availIdx % NUM := t.i0],
       availIdx := (s.availIdx + 1) % WRAP,
       slots := s.slots[t.i0 := Req(x, write, t.i1, t.i2, Posted)],
       posted := s.posted + 1)
  }

  /** The device moves the data the way the command says, reports success and queues the head. */
  function Completed(s: State, h: int): State
    requires Sized(s) && InFlight(s, h) && Obeyable(s, h)
  {
    var d1 := s.desc[s.desc[h].next];
    var op := s.ops[s.desc[h].addr.i];
    var x, b := d1.addr.x, op.sector / 2;
    s.(disk := if op.out then s.disk[b := s.bufs[x].data] else s.disk,
       bufs := if op.out then s.bufs else s.bufs[x := s.bufs[x].(data := s.disk[b])],
       infoStatus := s.infoStatus[s.desc[d1.next].addr.i := 0],
       usedRing := s.usedRing[s.usedIdx % NUM := h],
       usedIdx := (s.usedIdx + 1) % WRAP,
       slots := s.slots[h := s.slots[h].(phase := Done)],
       done := s.done + 1)
  }

  ghost function Apply(s: State, step: Step): State
    requires Enabled(s, step)
  {
    match step
    case Post(x, write) => Posting(s, x, write, Alloc3(s.free).value)
    case Take =>
      var h := s.availRing[s.deviceIdx % NUM];
      s.(slots := s.slots[h := s.slots[h].(phase := Taken)],
         deviceIdx := (s.deviceIdx + 1) % WRAP, taken := s.taken + 1)
    case Complete(h) => Completed(s, h)
    case Handle =>
      var h := s.usedRing[s.seenIdx % NUM];
      var x := s.infoBuf[h];
      s.(bufs := s.bufs[x := s.bufs[x].(owned := false)],
         slots := s.slots[h := s.slots[h].(phase := Finished)],
         seenIdx := (s.seenIdx + 1) % WRAP, seen := s.seen + 1)
    case Return(h) =>
      var p := FreeChain(s.free, s.desc, h).value;
      s.(free := p.0, desc := p.1, infoBuf := s.infoBuf[h := -1], slots := s.slots[h := Empty])
    case Touch(x, data) => s.(bufs := s.bufs[x := s.bufs[x].(data := data)])
  }

  ghost predicate Next(s: State, s': State) {
    exists step :: Enabled(s, step) && s' == Apply(s, step)
  }

  /** After virtio_disk_init: all descriptors free, rings empty, no request. */
  ghost predicate Init(s: State) {
    && Sized(s) && s.free == seq(NUM, i => true) && s.slots == seq(NUM, i => Empty)
    && s.availIdx == s.usedIdx == s.seenIdx == s.deviceIdx == 0
    && s.posted == s.taken == s.done == s.seen == 0
  }

  ghost predicate IsRun(run: seq<State>) {
    && |run| > 0 && Init(run[0])
    && (forall k :: 0 <= k < |run| - 1 ==> Next(run[k], run[k + 1]))
  }

  // ---------------------------------------------------------------- invariant

  /** How many requests are in the given phase. */
  function InPhase(slots: seq<Slot>, ph: Phase): nat {
    if slots == [] then 0 else (if slots[0].Req? && slots[0].phase == ph then 1 else 0) + InPhase(slots[1..], ph)
  }

  function Requests(slots: seq<Slot>): nat {
    if slots == [] then 0 else (if slots[0].Req? then 1 else 0) + Requests(slots[1..])
  }

  ghost predicate ReqOk(s: State, h: int)
    requires Sized(s) && InFlight(s, h)
  {
    var r := s.slots[h];
    && 0 <= r.i1 < NUM && 0 <= r.i2 < NUM && h != r.i1 && h != r.i2 && r.i1 != r.i2
    && !s.free[h] && !s.free[r.i1] && !s.free[r.i2]
    && 0 <= r.x < |s.bufs| && 0 <= s.bufs[r.x].blockno < |s.disk|
    && s.desc[h] == Desc(OpAt(h), 16, false, true, r.i1)
    && s.desc[r.i1] == Desc(DataOf(r.x), 1024, !r.write, true, r.i2)
    && s.desc[r.i2] == Desc(StatusAt(h), 1, true, false, 0)
    && s.ops[h] == Op(r.write, s.bufs[r.x].blockno * 2)
    && s.infoBuf[h] == r.x
    && (s.bufs[r.x].owned <==> r.phase != Finished)
    && (r.phase == Done || r.phase == Finished ==>
      s.infoStatus[h] == 0 && s.bufs[r.x].data == s.disk[s.bufs[r.x].blockno])
  }

  /** Two requests share no descriptor, no buffer and no block. */
  ghost predicate Apart(s: State, g: int, h: int)
    requires InFlight(s, g) && InFlight(s, h)
  {
    var p, q := s.slots[g], s.slots[h];
    && {g, p.i1, p.i2} !! {h, q.i1, q.i2}
    && p.x != q.x
    && (0 <= p.x < |s.bufs| && 0 <= q.x < |s.bufs| ==> s.bufs[p.x].blockno != s.bufs[q.x].blockno)
  }

  /** ring, from index lo to hi, holds distinct heads of requests in the given phase. */
  ghost predicate Window(s: State, ring: seq<int>, lo: nat, hi: nat, ph: Phase)
    requires |ring| == NUM
  {
    && (forall k {:trigger ring[k % NUM]} :: lo <= k < hi ==>
          InFlight(s, ring[k % NUM]) && s.slots[ring[k % NUM]].phase == ph)
    && (forall j, k {:trigger ring[j % NUM], ring[k % NUM]} :: lo <= j < k < hi ==> ring[j % NUM] != ring[k % NUM])
  }

  ghost predicate Counts(s: State)
    requires Sized(s)
  {
    && FreeCount(s.free) + 3 * Requests(s.slots) == NUM
    && s.posted == s.taken + InPhase(s.slots, Posted)
    && s.taken == s.done + InPhase(s.slots, Taken)
    && s.done == s.seen + InPhase(s.slots, Done)
    && s.availIdx == s.posted % WRAP && s.deviceIdx == s.taken % WRAP
    && s.usedIdx == s.done % WRAP && s.seenIdx == s.seen % WRAP
  }

  ghost predicate Inv(s: State) {
    && Sized(s)
    && Counts(s)
    && (forall h :: InFlight(s, h) ==> ReqOk(s, h))
    && (forall g, h :: InFlight(s, g) && InFlight(s, h) && g != h ==> Apart(s, g, h))
    && Window(s, s.availRing, s.taken, s.posted, Posted)
    && Window(s, s.usedRing, s.seen, s.done, Done)
  }
}
