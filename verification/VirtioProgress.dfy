/**
  No call of virtio_disk_rw is left behind: the device, the interrupt handler and the callers can
  always bring every request to its return, each of them in four steps and in any order.
 */
module VirtioProgress {
  import opened Virtio
  import opened VirtioProof

  /** The steps a request still has to go: taken, completed, handled, returned. */
  function StepsLeft(q: Slot): nat {
    if q.Empty? then 0 else match q.phase
      case Posted => 4
      case Taken => 3
      case Done => 2
      case Finished => 1
  }

  function Work(slots: seq<Slot>): nat {
    if slots == [] then 0 else StepsLeft(slots[0]) + Work(slots[1..])
  }

  lemma {:induction false} WorkUpdate(slots: seq<Slot>, h: int, q: Slot)
    requires 0 <= h < |slots|
    ensures Work(slots[h := q]) == Work(slots) - StepsLeft(slots[h]) + StepsLeft(q)
  {
    if h > 0 {
      assert slots[h := q][1..] == slots[1..][h - 1 := q];
      WorkUpdate(slots[1..], h - 1, q);
    }
  }

  lemma {:induction false} WorkSomewhere(slots: seq<Slot>) returns (h: int)
    requires Work(slots) > 0
    ensures 0 <= h < |slots| && slots[h].Req?
  {
    if slots[0].Req? { h := 0; } else {
      h := WorkSomewhere(slots[1..]);
      h := h + 1;
    }
  }

  lemma {:induction false} SomeInPhase(slots: seq<Slot>, h: int, ph: Phase)
    requires 0 <= h < |slots| && slots[h].Req? && slots[h].phase == ph
    ensures InPhase(slots, ph) > 0
  {
    if h > 0 { SomeInPhase(slots[1..], h - 1, ph); }
  }

  /** Steps on a request that is there already. */
  predicate Serves(step: Step) { step.Take? || step.Complete? || step.Handle? || step.Return? }

  /** Each such step brings exactly one request exactly one step further. */
  lemma ServeStep(s: State, step: Step)
    requires Inv(s) && Enabled(s, step) && Serves(step)
    ensures Inv(Apply(s, step)) && Work(Apply(s, step).slots) + 1 == Work(s.slots)
  {
    StepKeepsInv(s, step);
    match step
    case Take =>
      TakesPosted(s);
      var h := s.availRing[s.deviceIdx % NUM];
      WorkUpdate(s.slots, h, s.slots[h].(phase := Taken));
    case Complete(h) => WorkUpdate(s.slots, h, s.slots[h].(phase := Done));
    case Handle =>
      HandlesDone(s);
      var h := s.usedRing[s.seenIdx % NUM];
      WorkUpdate(s.slots, h, s.slots[h].(phase := Finished));
    case Return(h) =>
      assert ReqOk(s, h);
      WorkUpdate(s.slots, h, Empty);
    case _ =>
  }

  /** While there is a request, one can be brought further. */
  lemma SomeServes(s: State) returns (step: Step)
    requires Inv(s) && Work(s.slots) > 0
    ensures Serves(step) && Enabled(s, step)
  {
    var h := WorkSomewhere(s.slots);
    assert InFlight(s, h) && ReqOk(s, h);
    match s.slots[h].phase
    case Posted =>
      SomeInPhase(s.slots, h, Posted);
      AtMostTwo(s);
      WrapsApart(s.taken, s.posted);
      TakesPosted(s);
      step := Take;
    case Taken =>
      TakenIsObeyable(s, h);
      step := Complete(h);
    case Done =>
      SomeInPhase(s.slots, h, Done);
      AtMostTwo(s);
      WrapsApart(s.seen, s.done);
      HandlesDone(s);
      step := Handle;
    case Finished =>
      FreesItsChain(s, h);
      step := Return(h);
  }

  /** The steps, one after the other, lead from s to t. */
  ghost predicate Leads(s: State, steps: seq<Step>, t: State)
    decreases |steps|
  {
    if steps == [] then t == s else Enabled(s, steps[0]) && Leads(Apply(s, steps[0]), steps[1..], t)
  }

  lemma {:induction false} NoWork(slots: seq<Slot>)
    requires Work(slots) == 0
    ensures Requests(slots) == 0 && forall h :: 0 <= h < |slots| ==> slots[h].Empty?
  {
    if slots != [] { NoWork(slots[1..]); }
  }

  /** From every state, all calls can return, in exactly the steps they have left; then all descriptors are free. */
  lemma {:induction false} AllReturn(s: State) returns (steps: seq<Step>, t: State)
    requires Inv(s)
    ensures Leads(s, steps, t) && Inv(t) && |steps| == Work(s.slots)
    ensures forall k :: 0 <= k < |steps| ==> Serves(steps[k])
    ensures (forall h :: 0 <= h < NUM ==> t.slots[h].Empty?) && FreeCount(t.free) == NUM
    decreases Work(s.slots)
  {
    hide Enabled, Apply, Window, ReqOk, Apart;
    if Work(s.slots) == 0 {
      NoWork(s.slots);
      steps, t := [], s;
    } else {
      var step := SomeServes(s);
      ServeStep(s, step);
      var rest;
      rest, t := AllReturn(Apply(s, step));
      steps := [step] + rest;
      assert steps[1..] == rest;
    }
  }
}
