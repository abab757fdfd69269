/**
  A log that fills the cache is within reach: three operations, admitted by begin_op at the same
  time, log ten blocks each, and the commit that follows them finds no buffer for the log area.
 */
module LogFull {
  import opened Params
  import opened Blocks
  import opened LogMachine
  import opened LogProgress
  import LogProof

  /** How many of the first j logged blocks are those of process p. */
  function Share(j: int, p: int): nat {
    if j <= 10 * p then 0 else if j >= 10 * p + 10 then 10 else j - 10 * p
  }

  /** Processes 0, 1 and 2 are in an operation, and no other; no buffer is in use. */
  ghost predicate Three(s: State, j: int) {
    && |s.ops| == NPROC && s.outstanding == 3
    && (forall p :: 0 <= p < 3 ==> s.ops[p].InOp? && s.ops[p].appended == Share(j, p))
  }

  /** They have logged the j blocks from first on. */
  ghost predicate Filling(s: State, j: nat, first: int) {
    && Inv(s) && Quiet(s) && s.pc == Idle && Three(s, j)
    && s.start + LOGBLOCKS < first && first + NBUF <= |s.disk| && s.lh == seq(j, k requires 0 <= k < j => first + k)
  }

  lemma FillOne(s: State, j: nat, first: int) returns (steps: seq<Step>, t: State)
    requires Filling(s, j, first) && j < NBUF
    ensures Leads(s, steps, t) && NoCrash(steps) && Filling(t, j + 1, first)
  {
    hide Inv, Leads, NoCrash, Quiet;
    var p := j / 10;
    steps, t := LogsBlock(s, p, first + j);
  }

  lemma {:induction false} Fill(s: State, j: nat, first: int) returns (steps: seq<Step>, t: State)
    requires Filling(s, j, first) && j <= NBUF
    ensures Leads(s, steps, t) && NoCrash(steps) && Filling(t, NBUF, first)
    decreases NBUF - j
  {
    hide Filling, NoCrash, Enabled, Apply;
    if j == NBUF {
      steps, t := [], s;
      assert NoCrash([]) by { NoSteps(); }
    } else {
      var steps1, s1 := FillOne(s, j, first);
      var steps2;
      steps2, t := Fill(s1, j + 1, first);
      LeadsThen(s, steps1, s1, steps2, t);
      NoCrashes(steps1, steps2);
      steps := steps1 + steps2;
    }
  }

  lemma NoSteps()
    ensures NoCrash([])
  {
  }

  lemma Takes(s: State, step: Step) returns (t: State)
    requires Inv(s) && Enabled(s, step) && !step.Crash?
    ensures t == Apply(s, step) && Inv(t) && Leads(s, [step], t) && NoCrash([step])
  {
    hide Inv, Enabled, Apply, Abs;
    LogProof.StepRefines(s, step);
    t := Apply(s, step);
    assert Leads(t, [step][1..], t);
  }

  lemma Appended(s: State, a: seq<Step>, t: State, b: seq<Step>, u: State)
    requires Leads(s, a, t) && NoCrash(a) && Leads(t, b, u) && NoCrash(b)
    ensures Leads(s, a + b, u) && NoCrash(a + b)
  {
    LeadsThen(s, a, t, b, u);
  }

  /** begin_op admits three operations to an empty log. */
  lemma Begins(s: State, first: int) returns (steps: seq<Step>, t: State)
    requires Inv(s) && Quiet(s) && s.pc == Idle && s.lh == [] && s.outstanding == 0 && !s.committing
    requires |s.ops| == NPROC && (forall p :: 0 <= p < NPROC ==> s.ops[p].NoOp?)
    requires s.start + LOGBLOCKS < first && first + NBUF <= |s.disk|
    ensures Leads(s, steps, t) && NoCrash(steps) && Filling(t, 0, first)
  {
    hide Inv, Leads, NoCrash;
    var s1 := Takes(s, BeginOp(0));
    var s2 := Takes(s1, BeginOp(1));
    t := Takes(s2, BeginOp(2));
    Appended(s, [BeginOp(0)], s1, [BeginOp(1)], s2);
    Appended(s, [BeginOp(0)] + [BeginOp(1)], s2, [BeginOp(2)], t);
    steps := [BeginOp(0)] + [BeginOp(1)] + [BeginOp(2)];
    assert Three(t, 0);
  }

  lemma NoneDirty(s: State)
    requires Inv(s) && Quiet(s)
    ensures Clean(s)
  {
    forall i | HasBuf(s, i) ensures !s.bufs[i].dirty { BufFine(s, i); }
  }

  /** The last of the three to end starts the commit. */
  lemma Ends(s: State, first: int) returns (steps: seq<Step>, t: State)
    requires Filling(s, NBUF, first)
    ensures Leads(s, steps, t) && NoCrash(steps) && Stuck(t) && Quiet(t)
  {
    NoneDirty(s);
    hide Inv, Leads, NoCrash;
    var s1 := Takes(s, EndOp(0));
    var s2 := Takes(s1, EndOp(1));
    t := Takes(s2, EndOp(2));
    Appended(s, [EndOp(0)], s1, [EndOp(1)], s2);
    Appended(s, [EndOp(0)] + [EndOp(1)], s2, [EndOp(2)], t);
    steps := [EndOp(0)] + [EndOp(1)] + [EndOp(2)];
  }

  lemma {:induction false} RunOf(run: seq<State>, steps: seq<Step>, t: State) returns (longer: seq<State>)
    requires IsRun(run) && Leads(run[|run| - 1], steps, t)
    ensures IsRun(longer) && run <= longer && longer[|longer| - 1] == t
    decreases |steps|
  {
    hide Enabled, Apply, Init;
    if steps == [] {
      longer := run;
    } else {
      var s := run[|run| - 1];
      assert Next(s, Apply(s, steps[0]));
      longer := RunOf(run + [Apply(s, steps[0])], steps[1..], t);
    }
  }

  lemma BootReady(disk: seq<Block>, start: nat)
    requires GoodHead(disk, start)
    ensures Inv(Booted(disk, start)) && Quiet(Booted(disk, start)) && Init(Booted(disk, start))
  {
    LogProof.BootIsGood(disk, start);
  }

  lemma AfterRecovery(s: State)
    requires Inv(s) && s.outstanding == 0 && s.pc == Idle
    ensures |s.ops| == NPROC && !s.committing && forall p :: 0 <= p < NPROC ==> s.ops[p].NoOp?
  {
    LogProof.QuietIsClean(s);
  }

  /** From a boot of any disk with room for thirty blocks behind the log, a run leads to a commit that cannot end. */
  lemma FullLogIsReachable(disk: seq<Block>, start: nat) returns (run: seq<State>)
    requires GoodHead(disk, start) && start + 1 + LOGBLOCKS + NBUF <= |disk|
    ensures IsRun(run) && run[0] == Booted(disk, start)
    ensures Stuck(run[|run| - 1]) && !CanFinish(run[|run| - 1])
  {
    var s, first := Booted(disk, start), start + 1 + LOGBLOCKS;
    BootReady(disk, start);
    hide Inv, Init, Stuck, Filling, NoCrash, Enabled, Apply, Quiet, SameStore, Own;
    var steps1, s1 := RecoveryFinishes(s);
    OwnIsNoCrash(steps1, s.worker);
    AfterRecovery(s1);
    var steps2, s2 := Begins(s1, first);
    var steps3, s3 := Fill(s2, 0, first);
    var steps4, s4 := Ends(s3, first);
    Appended(s, steps1, s1, steps2, s2);
    Appended(s, steps1 + steps2, s2, steps3, s3);
    Appended(s, steps1 + steps2 + steps3, s3, steps4, s4);
    run := RunOf([s], steps1 + steps2 + steps3 + steps4, s4);
    StuckDecided(s4);
  }

  lemma StuckDecided(s: State)
    requires Stuck(s) && Quiet(s)
    ensures !CanFinish(s)
  {
    CommitDecided(s);
  }
}
