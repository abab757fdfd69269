/**
  What the log is for: whatever a crash interrupts, the file system recovered from the disk is in
  order, if every whole operation leaves it in order.

  Between two moments without an open operation lies a session of operations, which may overlap.
  Nothing is asked of the disk, or of the blocks in memory, while a session lasts.
 */
module CrashSafe {
  import opened Blocks
  import opened LogMachine
  import LogProof
  import opened FsState
  import opened FsImage

  // ---------------------------------------------------------------- runs of the store

  ghost predicate StoreRun(h: seq<Store>) {
    forall k {:trigger h[k]} :: 0 <= k < |h| - 1 ==> LogProof.StoreStep(h[k], h[k + 1])
  }

  /** No operation is open. */
  ghost predicate Quiet(a: Store) {
    a.active == map[]
  }

  /** Operations are open from after j until just before k, and the last of them ends there. */
  ghost predicate Session(h: seq<Store>, j: int, k: int) {
    && 0 <= j < k < |h| && Quiet(h[j]) && Quiet(h[k]) && (forall i :: j < i < k ==> !Quiet(h[i]))
    && exists p :: StoreNext(h[k - 1], h[k], End(p))
  }

  /** Every session keeps the property p of the contents. */
  ghost predicate SessionsKeep(h: seq<Store>, p: Image -> bool) {
    forall j, k {:trigger Session(h, j, k)} :: Session(h, j, k) && p(h[j].current) ==> p(h[k].current)
  }

  /** The last quiet moment up to k. */
  lemma {:induction false} LastQuiet(h: seq<Store>, k: int) returns (j: int)
    requires 0 <= k < |h| && Quiet(h[0])
    ensures 0 <= j <= k && Quiet(h[j]) && (forall i :: j < i <= k ==> !Quiet(h[i]))
    decreases k
  {
    if Quiet(h[k]) { j := k; } else { j := LastQuiet(h, k - 1); }
  }

  /** One step: what is durable keeps the property, and so does what is current once no operation is open. */
  lemma StepKeeps(h: seq<Store>, p: Image -> bool, k: int, j: int)
    requires SessionsKeep(h, p) && 0 <= j <= k && k + 1 < |h| && LogProof.StoreStep(h[k], h[k + 1])
    requires p(h[k].durable) && Quiet(h[j]) && p(h[j].current) && (forall i :: j < i <= k ==> !Quiet(h[i]))
    ensures p(h[k + 1].durable) && (Quiet(h[k + 1]) ==> p(h[k + 1].current))
  {
    var e :| StoreNext(h[k], h[k + 1], e);
    if e.End? && Quiet(h[k + 1]) {
      assert Session(h, j, k + 1);
    }
  }

  lemma {:induction false} DurableKeeps(h: seq<Store>, p: Image -> bool, k: int)
    requires StoreRun(h) && SessionsKeep(h, p) && 0 <= k < |h| && Quiet(h[0]) && p(h[0].durable) && p(h[0].current)
    ensures p(h[k].durable) && (Quiet(h[k]) ==> p(h[k].current))
    decreases k
  {
    hide SessionsKeep, Quiet, LogProof.StoreStep;
    if k > 0 {
      DurableKeeps(h, p, k - 1);
      var j := LastQuiet(h, k - 1);
      DurableKeeps(h, p, j);
      assert LogProof.StoreStep(h[k - 1], h[k - 1 + 1]);
      hide StoreRun;
      StepKeeps(h, p, k - 1, j);
    }
  }

  // ---------------------------------------------------------------- runs of the log

  /** h is what the run of the log looks like from outside. */
  ghost predicate SeenAs(run: seq<State>, h: seq<Store>) {
    && |h| == |run| && StoreRun(h)
    && (forall k {:trigger h[k]} :: 0 <= k < |run| ==> GoodHead(run[k].disk, run[k].start) && h[k] == Abs(run[k]))
  }

  /** Every run of the log is a run of the store, which begins with no operation open and all durable. */
  lemma StoresOf(run: seq<State>) returns (h: seq<Store>)
    requires IsRun(run)
    ensures SeenAs(run, h) && Quiet(h[0]) && h[0].current == h[0].durable == Recovered(run[0].disk, run[0].start)
  {
    forall k | 0 <= k < |run| ensures GoodHead(run[k].disk, run[k].start) { InvHasHead(run, k); }
    h := seq(|run|, k requires 0 <= k < |run| && GoodHead(run[k].disk, run[k].start) => Abs(run[k]));
    forall k {:trigger h[k]} | 0 <= k < |h| - 1 ensures LogProof.StoreStep(h[k], h[k + 1]) {
      hide Inv, Abs, IsRun, LogProof.StoreStep;
      LogProof.RunRefinesStore(run, k);
    }
    LogProof.BootIsGood(run[0].disk, run[0].start);
  }

  lemma InvHasHead(run: seq<State>, k: nat)
    requires IsRun(run) && k < |run|
    ensures GoodHead(run[k].disk, run[k].start)
  {
    LogProof.RunKeepsInv(run, k);
  }

  /**
    The log makes sessions atomic: over every run, with crashes anywhere, also in recovery, what
    recovery would produce has every property that held at the beginning and that whole sessions
    keep; and so has what readers find whenever no operation is open.
   */
  lemma RecoversWhole(run: seq<State>, h: seq<Store>, p: Image -> bool, k: int)
    requires IsRun(run) && SeenAs(run, h) && SessionsKeep(h, p) && 0 <= k < |run|
    requires GoodHead(run[0].disk, run[0].start) && p(Recovered(run[0].disk, run[0].start))
    ensures GoodHead(run[k].disk, run[k].start) && p(Recovered(run[k].disk, run[k].start))
    ensures Quiet(h[k]) ==> p(h[k].current)
  {
    var h' := StoresOf(run);
    assert h[0] == h'[0];
    hide Inv, IsRun, StoreRun, Quiet;
    DurableKeeps(h, p, k);
    assert h[k].durable == Recovered(run[k].disk, run[k].start);
  }

  // ---------------------------------------------------------------- the file system

  ghost predicate OpAt(g: Geometry, n: int, ms: seq<Image>, i: int)
    requires 0 <= i < |ms| - 1
  {
    WholeOp(g, n, ms[i], ms[i + 1])
  }

  /** Whole operations one after the other, from m to m'. */
  ghost predicate Path(g: Geometry, n: int, ms: seq<Image>, m: Image, m': Image) {
    && |ms| > 0 && ms[0] == m && ms[|ms| - 1] == m'
    && (forall i {:trigger OpAt(g, n, ms, i)} :: 0 <= i < |ms| - 1 ==> OpAt(g, n, ms, i))
  }

  /** Every session has the effect of whole operations in some order. */
  ghost predicate Serial(h: seq<Store>, g: Geometry, n: int) {
    forall j, k {:trigger Session(h, j, k)} :: Session(h, j, k) ==>
      exists ms :: Path(g, n, ms, h[j].current, h[k].current)
  }

  lemma {:induction false} PathIsSound(g: Geometry, n: int, ms: seq<Image>, m: Image, m': Image, i: int)
    requires Path(g, n, ms, m, m') && Sound(g, n, m) && 0 <= i < |ms|
    ensures Sound(g, n, ms[i])
    decreases i
  {
    hide Sound, WholeOp;
    if i > 0 {
      PathIsSound(g, n, ms, m, m', i - 1);
      assert OpAt(g, n, ms, i - 1);
      WholeOpIsSound(g, n, ms[i - 1], ms[i]);
    }
  }

  ghost function SoundPredicate(g: Geometry, n: int): (p: Image -> bool)
    ensures forall m :: p(m) <==> Sound(g, n, m)
  {
    m => Sound(g, n, m)
  }

  lemma SerialKeeps(h: seq<Store>, g: Geometry, n: int, p: Image -> bool)
    requires Serial(h, g, n) && forall m :: p(m) <==> Sound(g, n, m)
    ensures SessionsKeep(h, p)
  {
    hide Sound, WholeOp;
    forall j, k {:trigger Session(h, j, k)} | Session(h, j, k) && p(h[j].current) ensures p(h[k].current) {
      var ms :| Path(g, n, ms, h[j].current, h[k].current);
      PathIsSound(g, n, ms, h[j].current, h[k].current, |ms| - 1);
    }
  }

  /**
    A file system in order stays in order: over every run in which the sessions are serial, the
    disk recovered after a crash at any moment has every block in at most one place, no file with
    a hole, and a bitmap that says so.
   */
  lemma CrashLeavesFilesOk(run: seq<State>, h: seq<Store>, g: Geometry, n: int, k: int)
    requires IsRun(run) && SeenAs(run, h) && Serial(h, g, n) && 0 <= k < |run|
    requires GoodHead(run[0].disk, run[0].start) && Sound(g, n, Recovered(run[0].disk, run[0].start))
    ensures GoodHead(run[k].disk, run[k].start) && Sound(g, n, Recovered(run[k].disk, run[k].start))
    ensures Quiet(h[k]) ==> Sound(g, n, h[k].current)
  {
    hide Sound, IsRun, SeenAs, Serial, Quiet, SessionsKeep, Recovered;
    var p := SoundPredicate(g, n);
    SerialKeeps(h, g, n, p);
    assert |h| == |run| by { SameLength(run, h); }
    RecoversWhole(run, h, p, k);
  }

  lemma SameLength(run: seq<State>, h: seq<Store>)
    requires SeenAs(run, h)
    ensures |h| == |run|
  {
  }
}
