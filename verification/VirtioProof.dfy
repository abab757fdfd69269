/** Descriptor ownership and completion: every step of driver and device keeps the invariant. */
module VirtioProof {
  import opened Virtio

  // ---------------------------------------------------------------- counting

  function In(v: Slot, ph: Phase): nat { if v.Req? && v.phase == ph then 1 else 0 }

  lemma {:induction false} InPhaseUpdate(slots: seq<Slot>, h: int, v: Slot, ph: Phase)
    requires 0 <= h < |slots|
    ensures InPhase(slots[h := v], ph) == InPhase(slots, ph) - In(slots[h], ph) + In(v, ph)
  {
    if h > 0 {
      assert slots[h := v][1..] == slots[1..][h - 1 := v];
      InPhaseUpdate(slots[1..], h - 1, v, ph);
    }
  }

  lemma {:induction false} RequestsUpdate(slots: seq<Slot>, h: int, v: Slot)
    requires 0 <= h < |slots|
    ensures Requests(slots[h := v]) == Requests(slots) - (if slots[h].Req? then 1 else 0) + (if v.Req? then 1 else 0)
  {
    if h > 0 {
      assert slots[h := v][1..] == slots[1..][h - 1 := v];
      RequestsUpdate(slots[1..], h - 1, v);
    }
  }

  /** Every request is in one of the four phases. */
  lemma {:induction false} PhasesPartition(slots: seq<Slot>)
    ensures InPhase(slots, Posted) + InPhase(slots, Taken) + InPhase(slots, Done)
      + InPhase(slots, Finished) == Requests(slots)
  {
    if slots != [] { PhasesPartition(slots[1..]); }
  }

  lemma PhaseCounts(slots: seq<Slot>, h: int, v: Slot)
    requires 0 <= h < |slots|
    ensures forall ph :: InPhase(slots[h := v], ph) == InPhase(slots, ph) - In(slots[h], ph) + In(v, ph)
  {
    forall ph ensures InPhase(slots[h := v], ph) == InPhase(slots, ph) - In(slots[h], ph) + In(v, ph) {
      InPhaseUpdate(slots, h, v, ph);
    }
  }

  lemma AtMostTwo(s: State)
    requires Sized(s) && Counts(s)
    ensures Requests(s.slots) <= 2 && s.posted - s.seen <= 2
    ensures s.seen <= s.done <= s.taken <= s.posted
  {
    PhasesPartition(s.slots);
  }

  /** Indices at most two apart are equal exactly if their 16-bit forms are. */
  lemma WrapsApart(lo: nat, hi: nat)
    requires lo <= hi <= lo + 2
    ensures lo % WRAP == hi % WRAP <==> lo == hi
  {
  }

  /** The ring position of a 16-bit index is that of the unwrapped one: NUM divides 2^16. */
  lemma RingPosition(n: nat)
    ensures n % WRAP % NUM == n % NUM
  {
    var q := n / WRAP;
    assert n == q * WRAP + n % WRAP;
    assert n == NUM * (q * 8192) + n % WRAP;
    ModShift(n % WRAP, q * 8192);
  }

  lemma ModShift(r: nat, q: nat)
    ensures (NUM * q + r) % NUM == r % NUM
  {
  }

  lemma NextIndex(n: nat)
    ensures (n % WRAP + 1) % WRAP == (n + 1) % WRAP
  {
  }

  // ---------------------------------------------------------------- windows

  /** A ring entry just past the window joins it; the others stay where they are. */
  lemma WindowGrows(s: State, s': State, ring: seq<int>, lo: nat, hi: nat, h: int, ph: Phase)
    requires |ring| == NUM && lo <= hi < lo + NUM && Window(s, ring, lo, hi, ph)
    requires InFlight(s', h) && s'.slots[h].phase == ph
    requires !(InFlight(s, h) && s.slots[h].phase == ph)
    requires |s'.slots| == |s.slots| && forall g :: 0 <= g < |s.slots| && g != h ==> s'.slots[g] == s.slots[g]
    ensures Window(s', ring[hi % NUM := h], lo, hi + 1, ph)
  {
    var ring' := ring[hi % NUM := h];
    forall k | lo <= k < hi ensures ring'[k % NUM] == ring[k % NUM] && ring[k % NUM] != h { NotYet(k, hi); }
  }

  /** Ring positions less than NUM apart differ. */
  lemma NotYet(k: nat, n: nat)
    requires k < n < k + NUM
    ensures k % NUM != n % NUM
  {
  }

  /** The oldest entry leaves the window. */
  lemma WindowShrinks(s: State, s': State, ring: seq<int>, lo: nat, hi: nat, h: int, ph: Phase)
    requires |ring| == NUM && lo < hi && Window(s, ring, lo, hi, ph) && h == ring[lo % NUM]
    requires |s'.slots| == |s.slots| && forall g :: 0 <= g < |s.slots| && g != h ==> s'.slots[g] == s.slots[g]
    ensures Window(s', ring, lo + 1, hi, ph)
  {
    forall k | lo + 1 <= k < hi ensures ring[k % NUM] != h { assert ring[lo % NUM] != ring[k % NUM]; }
  }

  /** A window does not notice slots outside its phase. */
  lemma WindowIgnores(s: State, s': State, ring: seq<int>, lo: nat, hi: nat, h: int, ph: Phase)
    requires |ring| == NUM && Window(s, ring, lo, hi, ph)
    requires !(InFlight(s, h) && s.slots[h].phase == ph)
    requires |s'.slots| == |s.slots| && forall g :: 0 <= g < |s.slots| && g != h ==> s'.slots[g] == s.slots[g]
    ensures Window(s', ring, lo, hi, ph)
  {
  }

  // ---------------------------------------------------------------- steps

  lemma StepPost(s: State, x: int, write: bool)
    requires Inv(s) && Enabled(s, Post(x, write))
    ensures Inv(Apply(s, Post(x, write)))
  {
    var t := Alloc3(s.free).value;
    FreeIsIdle(s);
    hide Inv, Alloc3, Posting;
    assert Inv(Posting(s, x, write, t)) by { PostKeeps(s, x, write, t); }
  }

  /** The head of a request in flight is not free. */
  lemma FreeIsIdle(s: State)
    requires Inv(s)
    ensures forall h :: InFlight(s, h) ==> !s.free[h]
  {
    forall h | InFlight(s, h) ensures !s.free[h] { assert ReqOk(s, h); }
  }

  lemma PostKeeps(s: State, x: int, write: bool, t: Three)
    requires Inv(s) && Enabled(s, Post(x, write)) && t == Alloc3(s.free).value && !InFlight(s, t.i0)
    ensures Inv(Posting(s, x, write, t))
  {
    hide ReqOk, Apart, Window, Counts, FreeCount;
    PostCounts(s, x, write, t);
    PostWindows(s, x, write, t);
    PostReqs(s, x, write, t);
    PostApart(s, x, write, t);
  }

  /** The posted request joins the avail ring; the used ring does not notice. */
  lemma PostWindows(s: State, x: int, write: bool, t: Three)
    requires Inv(s) && Enabled(s, Post(x, write)) && t == Alloc3(s.free).value && !InFlight(s, t.i0)
    ensures var s' := Posting(s, x, write, t);
      Window(s', s'.availRing, s'.taken, s'.posted, Posted) && Window(s', s'.usedRing, s'.seen, s'.done, Done)
  {
    hide ReqOk, Apart, Window;
    var s' := Posting(s, x, write, t);
    AtMostTwo(s);
    RingPosition(s.posted);
    WindowGrows(s, s', s.availRing, s.taken, s.posted, t.i0, Posted);
    WindowIgnores(s, s', s.usedRing, s.seen, s.done, t.i0, Done);
  }

  lemma PostCounts(s: State, x: int, write: bool, t: Three)
    requires Inv(s) && 0 <= x < |s.bufs| && Fits(t) && !InFlight(s, t.i0)
    requires s.free[t.i0] && s.free[t.i1] && s.free[t.i2]
    ensures Counts(Posting(s, x, write, t))
  {
    var v := Req(x, write, t.i1, t.i2, Posted);
    FreeCountUpdate(s.free, t.i0, false);
    FreeCountUpdate(s.free[t.i0 := false], t.i1, false);
    FreeCountUpdate(s.free[t.i0 := false][t.i1 := false], t.i2, false);
    RequestsUpdate(s.slots, t.i0, v);
    PhaseCounts(s.slots, t.i0, v);
    NextIndex(s.posted);
  }

  lemma PostReqs(s: State, x: int, write: bool, t: Three)
    requires Inv(s) && Enabled(s, Post(x, write)) && t == Alloc3(s.free).value && !InFlight(s, t.i0)
    ensures var s' := Posting(s, x, write, t); Sized(s') && forall h :: InFlight(s', h) ==> ReqOk(s', h)
  {
    var s' := Posting(s, x, write, t);
    forall h | InFlight(s', h) ensures ReqOk(s', h) {
      if h != t.i0 { PostKeepsReq(s, x, write, t, h); }
    }
  }

  /** The descriptors of a request are not free, so a new request gets none of them. */
  lemma PostKeepsReq(s: State, x: int, write: bool, t: Three, h: int)
    requires Sized(s) && 0 <= x < |s.bufs| && Fits(t) && s.free[t.i0] && s.free[t.i1] && s.free[t.i2]
    requires InFlight(s, h) && ReqOk(s, h) && s.slots[h].x != x
    ensures InFlight(Posting(s, x, write, t), h) && ReqOk(Posting(s, x, write, t), h)
  {
  }

  lemma PostApart(s: State, x: int, write: bool, t: Three)
    requires Inv(s) && Enabled(s, Post(x, write)) && t == Alloc3(s.free).value && !InFlight(s, t.i0)
    ensures var s' := Posting(s, x, write, t);
      forall g, h :: InFlight(s', g) && InFlight(s', h) && g != h ==> Apart(s', g, h)
  {
    hide Inv, Alloc3;
    forall g, h | InFlight(Posting(s, x, write, t), g) && InFlight(Posting(s, x, write, t), h) && g != h
      ensures Apart(Posting(s, x, write, t), g, h)
    {
      PostApartFrom(s, x, write, t, g, h);
    }
  }

  lemma PostApartFrom(s: State, x: int, write: bool, t: Three, g: int, h: int)
    requires Inv(s) && Enabled(s, Post(x, write)) && t == Alloc3(s.free).value && !InFlight(s, t.i0) && g != h
    requires InFlight(Posting(s, x, write, t), g) && InFlight(Posting(s, x, write, t), h)
    ensures Apart(Posting(s, x, write, t), g, h)
  {
    hide Counts, Window;
    if g != t.i0 { assert InFlight(s, g) && ReqOk(s, g); }
    if h != t.i0 { assert InFlight(s, h) && ReqOk(s, h); }
    if g != t.i0 && h != t.i0 { assert Apart(s, g, h); }
  }

  /** When the device finds a new index, the ring entry is a posted request. */
  lemma TakesPosted(s: State)
    requires Inv(s) && s.deviceIdx != s.availIdx
    ensures s.taken < s.posted && s.deviceIdx % NUM == s.taken % NUM
    ensures InFlight(s, s.availRing[s.deviceIdx % NUM]) && s.slots[s.availRing[s.deviceIdx % NUM]].phase == Posted
  {
    AtMostTwo(s);
    WrapsApart(s.taken, s.posted);
    RingPosition(s.taken);
  }

  lemma StepTake(s: State)
    requires Inv(s) && Enabled(s, Take)
    ensures Inv(Apply(s, Take))
  {
    var s' := Apply(s, Take);
    TakesPosted(s);
    hide ReqOk, Apart;
    var h := s.availRing[s.taken % NUM];
    RequestsUpdate(s.slots, h, s'.slots[h]);
    PhaseCounts(s.slots, h, s'.slots[h]);
    NextIndex(s.taken);
    WindowShrinks(s, s', s.availRing, s.taken, s.posted, h, Posted);
    WindowIgnores(s, s', s.usedRing, s.seen, s.done, h, Done);
    PhaseChangeKeeps(s, s', h);
  }

  /** Only the phase of h changes, and not to or from a completed one. */
  lemma PhaseChangeKeeps(s: State, s': State, h: int)
    requires Inv(s) && InFlight(s, h) && s.slots[h].phase == Posted
    requires s' == s.(slots := s.slots[h := s.slots[h].(phase := Taken)], deviceIdx := s'.deviceIdx, taken := s'.taken)
    ensures forall g :: InFlight(s', g) ==> ReqOk(s', g)
    ensures forall g, k :: InFlight(s', g) && InFlight(s', k) && g != k ==> Apart(s', g, k)
  {
    forall g | InFlight(s', g) ensures ReqOk(s', g) { assert ReqOk(s, g); }
    forall g, k | InFlight(s', g) && InFlight(s', k) && g != k ensures Apart(s', g, k) {
      assert InFlight(s, g) && InFlight(s, k) && Apart(s, g, k);
    }
  }

  /** The device always finds a chain it can carry out: nobody has touched the descriptors it was given. */
  lemma TakenIsObeyable(s: State, h: int)
    requires Inv(s) && InFlight(s, h) && s.slots[h].phase == Taken
    ensures Obeyable(s, h)
  {
    assert ReqOk(s, h);
  }

  lemma StepComplete(s: State, h: int)
    requires Inv(s) && Enabled(s, Complete(h))
    ensures Inv(Apply(s, Complete(h)))
  {
    var s' := Completed(s, h);
    AtMostTwo(s);
    RequestsUpdate(s.slots, h, s'.slots[h]);
    PhaseCounts(s.slots, h, s'.slots[h]);
    NextIndex(s.done);
    RingPosition(s.done);
    WindowIgnores(s, s', s.availRing, s.taken, s.posted, h, Posted);
    WindowGrows(s, s', s.usedRing, s.seen, s.done, h, Done);
    CompleteReqs(s, h);
    CompleteApart(s, h);
  }

  lemma CompleteReqs(s: State, h: int)
    requires Inv(s) && Enabled(s, Complete(h))
    ensures var s' := Completed(s, h); forall g :: InFlight(s', g) ==> ReqOk(s', g)
  {
    var s' := Completed(s, h);
    assert ReqOk(s, h);
    forall g | InFlight(s', g) ensures ReqOk(s', g) {
      assert InFlight(s, g) && ReqOk(s, g);
      if g != h { assert Apart(s, g, h); }
    }
  }

  lemma CompleteApart(s: State, h: int)
    requires Inv(s) && Enabled(s, Complete(h))
    ensures var s' := Completed(s, h);
      forall g, k :: InFlight(s', g) && InFlight(s', k) && g != k ==> Apart(s', g, k)
  {
    var s' := Completed(s, h);
    assert ReqOk(s, h);
    forall g, k | InFlight(s', g) && InFlight(s', k) && g != k ensures Apart(s', g, k) {
      assert InFlight(s, g) && InFlight(s, k) && Apart(s, g, k);
    }
  }

  /** The interrupt handler only ever sees completed requests: status 0 and a buffer to hand back. */
  lemma HandlesDone(s: State)
    requires Inv(s) && s.seenIdx != s.usedIdx
    ensures s.seen < s.done && s.seenIdx % NUM == s.seen % NUM
    ensures var h := s.usedRing[s.seenIdx % NUM];
      && InFlight(s, h) && s.slots[h].phase == Done && s.infoStatus[h] == 0
      && s.infoBuf[h] == s.slots[h].x && 0 <= s.slots[h].x < |s.bufs|
  {
    AtMostTwo(s);
    WrapsApart(s.seen, s.done);
    RingPosition(s.seen);
    assert ReqOk(s, s.usedRing[s.seen % NUM]);
  }

  lemma StepHandle(s: State)
    requires Inv(s) && Enabled(s, Handle)
    ensures Inv(Apply(s, Handle))
  {
    var s' := Apply(s, Handle);
    HandlesDone(s);
    var h := s.usedRing[s.seen % NUM];
    assert ReqOk(s, h);
    RequestsUpdate(s.slots, h, s'.slots[h]);
    PhaseCounts(s.slots, h, s'.slots[h]);
    NextIndex(s.seen);
    WindowIgnores(s, s', s.availRing, s.taken, s.posted, h, Posted);
    WindowShrinks(s, s', s.usedRing, s.seen, s.done, h, Done);
    HandleKeepsReqs(s, s', h);
  }

  /** Handing buffer x back finishes its request and no other, since no other uses x. */
  lemma HandleKeepsReqs(s: State, s': State, h: int)
    requires Inv(s) && InFlight(s, h) && s.slots[h].phase == Done && ReqOk(s, h)
    requires s' == s.(bufs := s.bufs[s.slots[h].x := s.bufs[s.slots[h].x].(owned := false)],
                      slots := s.slots[h := s.slots[h].(phase := Finished)], seenIdx := s'.seenIdx, seen := s'.seen)
    ensures forall g :: InFlight(s', g) ==> ReqOk(s', g)
    ensures forall g, k :: InFlight(s', g) && InFlight(s', k) && g != k ==> Apart(s', g, k)
  {
    forall g | InFlight(s', g) ensures ReqOk(s', g) {
      assert InFlight(s, g) && ReqOk(s, g);
      if g != h { assert Apart(s, g, h); }
    }
    forall g, k | InFlight(s', g) && InFlight(s', k) && g != k ensures Apart(s', g, k) {
      assert InFlight(s, g) && InFlight(s, k) && Apart(s, g, k);
    }
  }

  /** free_chain(idx[0]) frees exactly the three descriptors of the request, and never panics. */
  lemma FreesItsChain(s: State, h: int)
    requires Inv(s) && InFlight(s, h)
    ensures var r := s.slots[h];
      && 0 <= r.i1 < NUM && 0 <= r.i2 < NUM
      && FreeChain(s.free, s.desc, h) ==
           Some((s.free[h := true][r.i1 := true][r.i2 := true], s.desc[h := NO_DESC][r.i1 := NO_DESC][r.i2 := NO_DESC]))
  {
    assert ReqOk(s, h);
    var r := s.slots[h];
    var f1, d1 := s.free[h := true], s.desc[h := NO_DESC];
    var f2, d2 := f1[r.i1 := true], d1[r.i1 := NO_DESC];
    assert FreeChain(f2, d2, r.i2) == Some((f2[r.i2 := true], d2[r.i2 := NO_DESC]));
    assert FreeChain(f1, d1, r.i1) == FreeChain(f2, d2, r.i2);
    assert FreeChain(s.free, s.desc, h) == FreeChain(f1, d1, r.i1);
  }

  lemma StepReturn(s: State, h: int)
    requires Inv(s) && Enabled(s, Return(h))
    ensures Inv(Apply(s, Return(h)))
  {
    var s' := Apply(s, Return(h));
    assert ReqOk(s, h) && s.slots[h].phase == Finished;
    FreesItsChain(s, h);
    assert Returned(s, s', h);
    hide Enabled, Apply, Window, Counts, FreeChain;
    ReturnCounts(s, s', h);
    WindowIgnores(s, s', s.availRing, s.taken, s.posted, h, Posted);
    WindowIgnores(s, s', s.usedRing, s.seen, s.done, h, Done);
    hide ReqOk;
    forall g | InFlight(s', g) ensures ReqOk(s', g) {
      assert InFlight(s, g) && ReqOk(s, g) && Apart(s, g, h);
      ReturnKeepsReq(s, s', h, g);
    }
    forall g, k | InFlight(s', g) && InFlight(s', k) && g != k ensures Apart(s', g, k) {
      assert InFlight(s, g) && InFlight(s, k) && Apart(s, g, k);
    }
  }

  /** virtio_disk_rw is done with its request: the chain is free. */
  ghost predicate Returned(s: State, s': State, h: int) {
    && Sized(s) && InFlight(s, h) && ReqOk(s, h) && s.slots[h].phase == Finished
    && var r := s.slots[h];
       s' == s.(free := s.free[h := true][r.i1 := true][r.i2 := true],
                desc := s.desc[h := NO_DESC][r.i1 := NO_DESC][r.i2 := NO_DESC],
                infoBuf := s.infoBuf[h := -1], slots := s.slots[h := Empty])
  }

  lemma ReturnCounts(s: State, s': State, h: int)
    requires Returned(s, s', h) && Counts(s)
    ensures Sized(s') && Counts(s')
  {
    var r := s.slots[h];
    FreeCountUpdate(s.free, h, true);
    FreeCountUpdate(s.free[h := true], r.i1, true);
    FreeCountUpdate(s.free[h := true][r.i1 := true], r.i2, true);
    RequestsUpdate(s.slots, h, Empty);
    PhaseCounts(s.slots, h, Empty);
  }

  lemma ReturnKeepsReq(s: State, s': State, h: int, g: int)
    requires Sized(s) && InFlight(s, h) && InFlight(s, g) && g != h && ReqOk(s, g) && ReqOk(s, h) && Apart(s, g, h)
    requires var r := s.slots[h];
      s' == s.(free := s.free[h := true][r.i1 := true][r.i2 := true],
               desc := s.desc[h := NO_DESC][r.i1 := NO_DESC][r.i2 := NO_DESC],
               infoBuf := s.infoBuf[h := -1], slots := s.slots[h := Empty])
    ensures InFlight(s', g) && ReqOk(s', g)
  {
    var r := s.slots[h];
    assert s.slots[g].i1 !in {h, r.i1, r.i2} && s.slots[g].i2 !in {h, r.i1, r.i2} && g !in {h, r.i1, r.i2};
  }

  lemma StepTouch(s: State, x: int, data: Block)
    requires Inv(s) && Enabled(s, Touch(x, data))
    ensures Inv(Apply(s, Touch(x, data)))
  {
    var s' := Apply(s, Touch(x, data));
    forall g | InFlight(s', g) ensures ReqOk(s', g) { assert InFlight(s, g) && ReqOk(s, g); }
    forall g, k | InFlight(s', g) && InFlight(s', k) && g != k ensures Apart(s', g, k) {
      assert InFlight(s, g) && InFlight(s, k) && Apart(s, g, k);
    }
  }

  lemma StepKeepsInv(s: State, step: Step)
    requires Inv(s) && Enabled(s, step)
    ensures Inv(Apply(s, step))
  {
    match step
    case Post(x, write) => StepPost(s, x, write);
    case Take => StepTake(s);
    case Complete(h) => StepComplete(s, h);
    case Handle => StepHandle(s);
    case Return(h) => StepReturn(s, h);
    case Touch(x, data) => StepTouch(s, x, data);
  }

  lemma {:induction false} AllFree(n: nat)
    ensures FreeCount(seq(n, i => true)) == n
    ensures var slots := seq(n, i => Empty);
      Requests(slots) == 0 && InPhase(slots, Posted) == InPhase(slots, Taken) == InPhase(slots, Done) == 0
  {
    if n > 0 {
      assert seq(n, i => true)[1..] == seq(n - 1, i => true);
      assert seq(n, i => Empty)[1..] == seq(n - 1, i => Empty);
      AllFree(n - 1);
    }
  }

  // ---------------------------------------------------------------- the theorems

  lemma {:induction false} RunKeepsInv(run: seq<State>, k: nat)
    requires IsRun(run) && k < |run|
    ensures Inv(run[k])
  {
    if k == 0 {
      AllFree(NUM);
    } else {
      RunKeepsInv(run, k - 1);
      assert Next(run[k - 1], run[k]);
      var step :| Enabled(run[k - 1], step) && run[k] == Apply(run[k - 1], step);
      StepKeepsInv(run[k - 1], step);
    }
  }

  /**
    Ownership, in every run: free descriptors plus three per request total NUM, chains are
    disjoint, and a new request never overwrites an avail entry the device has not read.
   */
  lemma Ownership(run: seq<State>, k: nat)
    requires IsRun(run) && k < |run|
    ensures var s := run[k];
      && Sized(s) && FreeCount(s.free) + 3 * Requests(s.slots) == NUM
      && (forall g, h :: InFlight(s, g) && InFlight(s, h) && g != h ==> Apart(s, g, h))
      && s.posted - s.taken <= 2
      && (forall j {:trigger j % NUM} :: s.taken <= j < s.posted ==> j % NUM != s.posted % NUM)
  {
    RunKeepsInv(run, k);
    var s := run[k];
    AtMostTwo(s);
    hide IsRun, Window, ReqOk, Apart;
    forall j {:trigger j % NUM} | s.taken <= j < s.posted ensures j % NUM != s.posted % NUM { NotYet(j, s.posted); }
  }

  /** No panic in the driver and no request the device cannot carry out, in every run. */
  lemma NeverPanics(run: seq<State>, k: nat, h: int)
    requires IsRun(run) && k < |run|
    ensures Sized(run[k])
    ensures run[k].seenIdx != run[k].usedIdx ==> Enabled(run[k], Handle)
    ensures run[k].seenIdx != run[k].usedIdx ==> run[k].infoStatus[run[k].usedRing[run[k].seenIdx % NUM]] == 0
    ensures run[k].deviceIdx != run[k].availIdx ==> Enabled(run[k], Take)
    ensures InFlight(run[k], h) && run[k].slots[h].phase == Taken ==> Enabled(run[k], Complete(h))
    ensures InFlight(run[k], h) && run[k].slots[h].phase == Finished ==> Enabled(run[k], Return(h))
  {
    var s := run[k];
    RunKeepsInv(run, k);
    if s.seenIdx != s.usedIdx { HandlesDone(s); }
    if s.deviceIdx != s.availIdx { TakesPosted(s); }
    if InFlight(s, h) {
      assert ReqOk(s, h);
      FreesItsChain(s, h);
    }
  }

  /**
    virtio_disk_rw returns only when its own request is complete, whatever order the device
    chose: buffer and disk block agree, whichever way the data moved.
   */
  lemma ReturnsCompleted(run: seq<State>, k: nat, h: int)
    requires IsRun(run) && k < |run| && Enabled(run[k], Return(h))
    ensures var s := run[k]; var r := s.slots[h];
      && r.phase == Finished && 0 <= s.bufs[r.x].blockno < |s.disk|
      && s.bufs[r.x].data == s.disk[s.bufs[r.x].blockno]
  {
    RunKeepsInv(run, k);
    assert ReqOk(run[k], h);
  }

  /** A completion moves the requester's data and nothing else: no other buffer, no other block. */
  lemma CompletesExactly(s: State, h: int)
    requires Inv(s) && Enabled(s, Complete(h))
    ensures var s' := Apply(s, Complete(h)); var r := s.slots[h]; var b := s.bufs[r.x].blockno;
      && 0 <= r.x < |s.bufs| && 0 <= b < |s.disk|
      && s'.disk == (if r.write then s.disk[b := s.bufs[r.x].data] else s.disk)
      && s'.bufs == (if r.write then s.bufs else s.bufs[r.x := s.bufs[r.x].(data := s.disk[b])])
      && s'.infoStatus == s.infoStatus[h := 0]
  {
    assert ReqOk(s, h);
  }

  // ---------------------------------------------------------------- a whole call

  /** Step j of the run is this one. */
  ghost predicate Takes(run: seq<State>, j: int, step: Step) {
    0 <= j < |run| - 1 && Enabled(run[j], step) && run[j + 1] == Apply(run[j], step)
  }

  /**
    A call virtio_disk_rw(x, write) is under way with head h.  Buffer x caches block b; when the
    call was made the buffer held data and the disk was.
   */
  ghost predicate Underway(s: State, h: int, x: int, write: bool, b: int, data: Block, was: Block) {
    && InFlight(s, h) && s.slots[h].x == x && s.slots[h].write == write
    && 0 <= x < |s.bufs| && s.bufs[x].blockno == b && 0 <= b < |s.disk|
    && var served := s.slots[h].phase == Done || s.slots[h].phase == Finished;
    && s.disk[b] == (if write && served then data else was)
    && s.bufs[x].data == (if !write && served then was else data)
  }

  lemma PostFacts(s: State, x: int, write: bool)
    requires Enabled(s, Post(x, write))
    ensures |s.free| == NUM && Alloc3(s.free).Some? && 0 <= x < |s.bufs| && 0 <= s.bufs[x].blockno < |s.disk|
  {
  }

  lemma PostStarts(s: State, x: int, write: bool)
    requires Inv(s) && Enabled(s, Post(x, write))
    ensures var b := s.bufs[x].blockno;
      Underway(Apply(s, Post(x, write)), Alloc3(s.free).value.i0, x, write, b, s.bufs[x].data, s.disk[b])
  {
    hide Counts, Window, ReqOk, Apart;
  }

  /** A step that changes neither the request, its buffer nor its block. */
  lemma BystanderUnderway(s: State, s': State, h: int, x: int, write: bool, b: int, data: Block, was: Block)
    requires Underway(s, h, x, write, b, data, was) && |s'.bufs| == |s.bufs| && |s'.disk| == |s.disk|
    requires InFlight(s', h) && s'.slots[h].x == x && s'.slots[h].write == write
    requires s'.bufs[x].blockno == b && s'.bufs[x].data == s.bufs[x].data && s'.disk[b] == s.disk[b]
    requires s'.slots[h].phase == s.slots[h].phase
          || (s.slots[h].phase == Posted && s'.slots[h].phase == Taken)
          || (s.slots[h].phase == Done && s'.slots[h].phase == Finished)
    ensures Underway(s', h, x, write, b, data, was)
  {
  }

  lemma DriverUnderway(s: State, step: Step, h: int, x: int, write: bool, b: int, data: Block, was: Block)
    requires Inv(s) && Enabled(s, step) && Underway(s, h, x, write, b, data, was) && step != Return(h)
    requires step.Post? || step.Return? || step.Touch?
    ensures Underway(Apply(s, step), h, x, write, b, data, was)
  {
    hide Counts, Window;
    assert ReqOk(s, h);
    if step.Post? { FreeIsIdle(s); }
    if step.Return? { assert ReqOk(s, step.h); FreesItsChain(s, step.h); }
    hide ReqOk, Apart, FreeChain;
    BystanderUnderway(s, Apply(s, step), h, x, write, b, data, was);
  }

  lemma HandleUnderway(s: State, step: Step, h: int, x: int, write: bool, b: int, data: Block, was: Block)
    requires Inv(s) && Enabled(s, step) && Underway(s, h, x, write, b, data, was) && (step.Take? || step.Handle?)
    ensures Underway(Apply(s, step), h, x, write, b, data, was)
  {
    if step.Take? { TakesPosted(s); } else {
      HandlesDone(s);
      var g := s.usedRing[s.seenIdx % NUM];
      assert ReqOk(s, g);
    }
    hide Counts, Window, ReqOk, Apart;
    BystanderUnderway(s, Apply(s, step), h, x, write, b, data, was);
  }

  lemma CompleteUnderway(s: State, g: int, h: int, x: int, write: bool, b: int, data: Block, was: Block)
    requires Inv(s) && Enabled(s, Complete(g)) && Underway(s, h, x, write, b, data, was)
    ensures Underway(Apply(s, Complete(g)), h, x, write, b, data, was)
  {
    hide Counts, Window;
    CompletesExactly(s, g);
    assert ReqOk(s, g) && ReqOk(s, h);
    if g != h { assert Apart(s, g, h); }
  }

  /** What other calls, the device, the handler and the owners of other buffers do leaves it alone. */
  lemma StepUnderway(s: State, step: Step, h: int, x: int, write: bool, b: int, data: Block, was: Block)
    requires Inv(s) && Enabled(s, step) && Underway(s, h, x, write, b, data, was) && step != Return(h)
    ensures Underway(Apply(s, step), h, x, write, b, data, was)
  {
    hide Inv, Enabled, Apply, Underway;
    if step.Complete? { CompleteUnderway(s, step.h, h, x, write, b, data, was); }
    else if step.Take? || step.Handle? { HandleUnderway(s, step, h, x, write, b, data, was); }
    else { DriverUnderway(s, step, h, x, write, b, data, was); }
  }

  lemma {:induction false} RunUnderway(run: seq<State>, a: int, k: int, h: int, x: int, write: bool, b: int,
      data: Block, was: Block)
    requires IsRun(run) && 0 <= a <= k < |run| && Underway(run[a], h, x, write, b, data, was)
    requires forall j :: a <= j < k ==> !Takes(run, j, Return(h))
    ensures Underway(run[k], h, x, write, b, data, was)
    decreases k
  {
    hide Inv, Apply, Underway, Enabled, Init;
    if k > a {
      RunUnderway(run, a, k - 1, h, x, write, b, data, was);
      RunKeepsInv(run, k - 1);
      assert Next(run[k - 1], run[k]);
      var step :| Enabled(run[k - 1], step) && run[k] == Apply(run[k - 1], step);
      assert Takes(run, k - 1, step);
      StepUnderway(run[k - 1], step, h, x, write, b, data, was);
    }
  }

  lemma ReturnsServed(s: State, h: int, x: int, write: bool, b: int, data: Block, was: Block)
    requires Inv(s) && Enabled(s, Return(h)) && Underway(s, h, x, write, b, data, was)
    ensures 0 <= x < |s.bufs| && s.bufs[x].blockno == b && 0 <= b < |s.disk|
    ensures var moved := if write then data else was; s.disk[b] == moved && s.bufs[x].data == moved
  {
    hide Counts, Window, Apart;
    assert ReqOk(s, h);
  }

  /**
    virtio_disk_rw does what its argument says, over every run: when the call returns, a write has
    put the buffer's data on its block, and the buffer still holds them; a read has put the block's
    data into the buffer, and the block is as it was.  Nobody else has touched either meanwhile.
   */
  lemma CallDoesWhatItSays(run: seq<State>, a: int, k: int, x: int, write: bool)
    requires IsRun(run) && Takes(run, a, Post(x, write)) && a < k < |run|
    requires forall j :: a < j < k ==> !Takes(run, j, Return(Alloc3(run[a].free).value.i0))
    requires Enabled(run[k], Return(Alloc3(run[a].free).value.i0))
    ensures 0 <= x < |run[k].bufs| && 0 <= run[a].bufs[x].blockno < |run[k].disk|
    ensures run[k].bufs[x].blockno == run[a].bufs[x].blockno
    ensures var b := run[a].bufs[x].blockno; var moved := if write then run[a].bufs[x].data else run[a].disk[b];
      run[k].disk[b] == moved && run[k].bufs[x].data == moved
  {
    PostFacts(run[a], x, write);
    RunKeepsInv(run, a);
    PostStarts(run[a], x, write);
    RunKeepsInv(run, k);
    hide Init, Apply, Alloc3, Inv, Underway, Enabled;
    var h, b := Alloc3(run[a].free).value.i0, run[a].bufs[x].blockno;
    RunUnderway(run, a + 1, k, h, x, write, b, run[a].bufs[x].data, run[a].disk[b]);
    ReturnsServed(run[k], h, x, write, b, run[a].bufs[x].data, run[a].disk[b]);
  }
}
