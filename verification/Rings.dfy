/**
  The pipe (pipe.c) and the console input ring (console.c): circular buffers whose
  positions are 32-bit counters that wrap around and are reduced modulo the buffer size
  only when the buffer is indexed.

  Each method is what happens under the lock between two points where the source may sleep.
 */
module Rings {
  const WORD := 0x1_0000_0000
  const PIPESIZE := 512
  const INPUT_BUF_SIZE := 128

  // ---------------------------------------------------------------- counters that wrap

  /** Wrapping a counter does not disturb the index it selects if the size divides 2^32. */
  lemma IndexSurvives(k: nat, n: nat)
    requires n > 0 && WORD % n == 0
    ensures k % WORD % n == k % n
  {
    var m := WORD / n;
    var q, x := k / WORD, k % WORD;
    assert WORD == m * n;
    assert k == q * WORD + x;
    MulAssoc(q, m, n);
    AddMultiple(x, q * m, n);
  }

  lemma MulAssoc(q: int, m: int, n: int)
    ensures q * (m * n) == (q * m) * n
  {
  }

  lemma {:induction false} AddMultiple(x: nat, q: nat, n: nat)
    requires n > 0
    ensures (q * n + x) % n == x % n
    decreases q
  {
    if q > 0 {
      AddMultiple(x, q - 1, n);
      var y := (q - 1) * n + x;
      assert q * n + x == y + n;
      AddOnce(y, n);
    }
  }

  lemma AddOnce(y: nat, n: nat)
    requires n > 0
    ensures (y + n) % n == y % n
  {
    var d := (y + n) / n - y / n;
    assert y + n == (y + n) / n * n + (y + n) % n;
    assert y == y / n * n + y % n;
    assert d * n == n + y % n - (y + n) % n;
    MulBounds(d, n);
  }

  lemma MulBounds(d: int, n: int)
    requires n > 0
    ensures (d <= 0 ==> d * n <= 0) && (d >= 1 ==> d * n >= n) && (d >= 2 ==> d * n >= 2 * n)
  {
  }

  /** It does so for every counter value only if the size divides 2^32. */
  lemma IndexSurvivesExactly(n: nat)
    requires n > 0
    ensures (forall k: nat :: k % WORD % n == k % n) <==> WORD % n == 0
  {
    if WORD % n == 0 {
      forall k: nat ensures k % WORD % n == k % n { IndexSurvives(k, n); }
    } else {
      var k: nat := WORD;
      assert k % WORD == 0;
      assert 0 % n == 0;
      assert k % WORD % n != k % n;
    }
  }

  /** Unsigned comparison of wrapped counters tells the distance, as long as it is small. */
  lemma WrappedDistance(r: nat, w: nat, n: nat)
    requires r <= w <= r + n && n < WORD
    ensures r % WORD == w % WORD <==> r == w
    ensures w % WORD == (r % WORD + n) % WORD <==> w == r + n
    ensures (w % WORD - r % WORD) % WORD == w - r
  {
    var a, b := r / WORD, w / WORD;
    assert r == a * WORD + r % WORD && w == b * WORD + w % WORD;
    assert a <= b <= a + 1;
  }

  // ---------------------------------------------------------------- the buffer

  /** Positions from r on, up to e, of the accepted bytes are in the buffer. */
  ghost predicate Holds(buf: seq<int>, accepted: seq<int>, r: int, e: int) {
    && 0 <= r <= e == |accepted| && 0 < |buf|
    && (forall k :: r <= k < e ==> buf[k % |buf|] == accepted[k])
  }

  /** Two positions less than n apart have different indices. */
  lemma DifferentIndex(j: nat, k: nat, n: nat)
    requires j < k < j + n
    ensures j % n != k % n
  {
    var d := k / n - j / n;
    MulBounds(d, n);
    assert k == k / n * n + k % n && j == j / n * n + j % n;
    assert k - j == d * n + (k % n - j % n);
  }

  lemma HoldsPop(buf: seq<int>, accepted: seq<int>, r: int, e: int)
    requires Holds(buf, accepted, r, e) && r < e
    ensures buf[r % |buf|] == accepted[r] && Holds(buf, accepted, r + 1, e)
  {
  }

  lemma HoldsPush(buf: seq<int>, accepted: seq<int>, r: int, e: int, c: int)
    requires Holds(buf, accepted, r, e) && e - r < |buf|
    ensures Holds(buf[e % |buf| := c], accepted + [c], r, e + 1)
  {
    var buf', acc' := buf[e % |buf| := c], accepted + [c];
    forall k | r <= k < e + 1 ensures buf'[k % |buf'|] == acc'[k] {
      if k < e { DifferentIndex(k, e, |buf|); }
    }
  }

  // ---------------------------------------------------------------- whole runs

  /** What a run of a ring did: bytes accepted by a writer, bytes removed by a reader. */
  datatype Event = Put(bytes: seq<int>) | Take(bytes: seq<int>)

  ghost function Puts(run: seq<Event>): seq<int> {
    if run == [] then [] else
      Puts(run[..|run| - 1]) + if run[|run| - 1].Put? then run[|run| - 1].bytes else []
  }

  ghost function Takes(run: seq<Event>): seq<int> {
    if run == [] then [] else
      Takes(run[..|run| - 1]) + if run[|run| - 1].Take? then run[|run| - 1].bytes else []
  }

  /** Every step keeps to the contracts above: a reader takes the bytes after those already taken. */
  ghost predicate Lawful(run: seq<Event>) {
    run == [] ||
    var before, last := run[..|run| - 1], run[|run| - 1];
    Lawful(before) &&
    (last.Take? ==> var n := |Takes(before)|;
      n + |last.bytes| <= |Puts(before)| && last.bytes == Puts(before)[n..n + |last.bytes|])
  }

  /** Over every run, the bytes removed are a prefix of the bytes accepted. */
  lemma {:induction false} FirstInFirstOut(run: seq<Event>)
    requires Lawful(run)
    ensures Takes(run) <= Puts(run)
  {
    if run != [] {
      FirstInFirstOut(run[..|run| - 1]);
    }
  }

  /** The run so far is lawful, and is what made the ring what it is. */
  ghost predicate Recorded(run: seq<Event>, accepted: seq<int>, removed: int) {
    Lawful(run) && Puts(run) == accepted && 0 <= removed <= |accepted| && Takes(run) == accepted[..removed]
  }

  lemma RecordPut(run: seq<Event>, accepted: seq<int>, removed: int, b: seq<int>)
    requires Recorded(run, accepted, removed)
    ensures Recorded(run + [Put(b)], accepted + b, removed)
  {
    assert (run + [Put(b)])[..|run|] == run;
  }

  lemma RecordTake(run: seq<Event>, accepted: seq<int>, removed: int, b: seq<int>)
    requires Recorded(run, accepted, removed) && removed + |b| <= |accepted| && b == accepted[removed..removed + |b|]
    ensures Recorded(run + [Take(b)], accepted, removed + |b|)
  {
    assert (run + [Take(b)])[..|run|] == run;
  }

  // ---------------------------------------------------------------- pipe

  lemma Longer(a: seq<int>, src: seq<int>, i: int, j: int)
    requires 0 <= i <= j < |src|
    ensures a + src[i..j] + [src[j]] == a + src[i..j + 1]
  {
  }

  datatype Outcome = Done | Blocked | Failed

  class Pipe {
    const data: array<int>
    var nread: int
    var nwrite: int
    var readopen: bool
    var writeopen: bool
    ghost var accepted: seq<int>     // every byte ever written
    ghost var removed: int           // how many of them have been read

    ghost var history: seq<Event>

    ghost predicate Ring()
      reads this`nread, this`nwrite, this`accepted, this`removed, data
    {
      && data.Length == PIPESIZE && 0 <= removed <= |accepted| <= removed + PIPESIZE
      && nread == removed % WORD && nwrite == |accepted| % WORD
      && Holds(data[..], accepted, removed, |accepted|)
    }

    /** The ring is in order, and the bytes read so far are the first ones written. */
    ghost predicate Valid()
      reads this, data
    {
      Ring() && Recorded(history, accepted, removed)
    }

    /** pipealloc */
    constructor ()
      ensures Valid() && fresh(data) && accepted == [] && removed == 0 && readopen && writeopen
    {
      data := new int[PIPESIZE];
      nread, nwrite, readopen, writeopen := 0, 0, true, true;
      accepted, removed, history := [], 0, [];
    }

    /**
      pipewrite, from byte start until it is done, must sleep or fails.  Every byte it takes is
      appended; it sleeps only when the pipe is full.  ret is what it returns unless it sleeps.
     */
    method Write(src: seq<int>, start: nat, good: nat, killed: bool) returns (i: int, how: Outcome, ret: int)
      requires Valid() && start <= |src|
      modifies this, data
      ensures Valid() && start <= i <= |src| && accepted == old(accepted) + src[start..i] && removed == old(removed)
      ensures (how == Done <==> i == |src|) && (i == start || i <= good)
      ensures how == Blocked ==> i < |src| && |accepted| == removed + PIPESIZE && readopen && !killed
      ensures how == Failed ==> i < |src| && (!readopen || killed || i >= good)
      ensures ret == if how == Failed && (!readopen || killed || i == 0) then -1 else i
      ensures history == old(history) + [Put(src[start..i])]
      ensures readopen == old(readopen) && writeopen == old(writeopen)
    {
      hide Recorded, Holds, Ring;
      i, how, ret := start, Done, -1;
      while i < |src|
        invariant Ring() && history == old(history) && removed == old(removed)
        invariant start <= i <= |src| && accepted == old(accepted) + src[start..i] && (i == start || i <= good)
        invariant readopen == old(readopen) && writeopen == old(writeopen) && how == Done && ret == -1
      {
        if !readopen || killed {
          how := Failed;
          break;
        }
        var full := IsFull();
        if full {
          how := Blocked;
          break;
        }
        if i >= good {
          how := Failed;
          if i != 0 { ret := i; }
          break;
        }
        Push(src[i]);
        Longer(old(accepted), src, start, i);
        i := i + 1;
      }
      if how != Failed { ret := i; }
      RecordPut(history, old(accepted), removed, src[start..i]);
      history := history + [Put(src[start..i])];
    }

    /** pipewrite's test for a full pipe. */
    method IsFull() returns (full: bool)
      requires Ring()
      ensures full <==> |accepted| == removed + PIPESIZE
      ensures !full ==> |accepted| < removed + PIPESIZE
    {
      hide Holds;
      WrappedDistance(removed, |accepted|, PIPESIZE);
      full := nwrite == (nread + PIPESIZE) % WORD;
    }

    /** Store a byte at the write position. */
    method Push(ch: int)
      requires Ring() && |accepted| < removed + PIPESIZE
      modifies this`nwrite, this`accepted, data
      ensures Ring() && accepted == old(accepted) + [ch]
    {
      hide Holds;
      IndexSurvives(|accepted|, PIPESIZE);
      HoldsPush(data[..], accepted, removed, |accepted|, ch);
      ghost var before := data[..];
      data[nwrite % PIPESIZE] := ch;
      assert data[..] == before[|accepted| % PIPESIZE := ch];
      NextCount(|accepted|);
      nwrite := (nwrite + 1) % WORD;
      accepted := accepted + [ch];
    }

    /**
      piperead after its wait: up to n bytes, the oldest ones not yet read, in order.  A byte
      the reader cannot take stays in the pipe.
     */
    method Read(n: nat, good: nat) returns (i: int, got: seq<int>)
      requires Valid()
      modifies this
      ensures Valid() && accepted == old(accepted) && removed == old(removed) + |got|
      ensures got == accepted[old(removed)..old(removed) + |got|]
      ensures i == |got| || (i == -1 && got == [])
      ensures i == -1 <==> good == 0 && n > 0 && old(removed) < |accepted|
      ensures |got| <= n && |got| <= good && (|got| < n ==> removed == |accepted| || |got| == good)
      ensures history == old(history) + [Take(got)]
      ensures readopen == old(readopen) && writeopen == old(writeopen)
    {
      hide Recorded, Holds;
      i, got := 0, [];
      while i < n
        invariant 0 <= i <= n && |got| == i && i <= good && Ring() && history == old(history)
        invariant accepted == old(accepted) && removed == old(removed) + i
        invariant got == accepted[old(removed)..old(removed) + i]
        invariant readopen == old(readopen) && writeopen == old(writeopen)
      {
        WrappedDistance(removed, |accepted|, PIPESIZE);
        if nread == nwrite { break; }
        IndexSurvives(removed, PIPESIZE);
        var ch := data[nread % PIPESIZE];
        HoldsPop(data[..], accepted, removed, |accepted|);
        if i == good {
          if i == 0 { i := -1; }
          break;
        }
        NextCount(removed);
        nread := (nread + 1) % WORD;
        removed := removed + 1;
        got := got + [ch];
        i := i + 1;
      }
      RecordTake(history, accepted, old(removed), got);
      history := history + [Take(got)];
    }

    /** pipeclose */
    method Close(writable: bool) returns (last: bool)
      requires Valid()
      modifies this
      ensures Valid() && accepted == old(accepted) && removed == old(removed) && history == old(history)
      ensures writeopen == (old(writeopen) && !writable) && readopen == (old(readopen) && writable)
      ensures last <==> !readopen && !writeopen
    {
      if writable { writeopen := false; } else { readopen := false; }
      last := !readopen && !writeopen;
    }
  }

  /** At every moment between two calls, the bytes read from a pipe are a prefix of those written to it. */
  lemma PipeInOrder(p: Pipe)
    requires p.Valid()
    ensures Takes(p.history) <= Puts(p.history) && |Puts(p.history)| - |Takes(p.history)| <= PIPESIZE
  {
    FirstInFirstOut(p.history);
  }

  // ---------------------------------------------------------------- console input

  const NEWLINE := 10
  const RETURN := 13

  class Console {
    const buf: array<int>
    const stream: bool               // LAB2_BUF_SEMANTICS == 1: hand over every character at once
    var r: int                       // read position
    var w: int                       // end of what readers may take
    var e: int                       // end of what has been typed
    ghost var accepted: seq<int>     // every character stored
    ghost var removed: int           // read position, without wrapping
    ghost var committed: int         // w, without wrapping

    ghost var history: seq<Event>

    ghost predicate Core()
      reads this, buf
    {
      && buf.Length == INPUT_BUF_SIZE && 0 <= removed <= committed <= |accepted| <= removed + INPUT_BUF_SIZE
      && r == removed % WORD && w == committed % WORD && e == |accepted| % WORD
      && Holds(buf[..], accepted, removed, |accepted|)
    }

    ghost predicate Ring()
      reads this, buf
    {
      && Core()
      && (stream ==> committed == |accepted|)
      && (|accepted| == removed + INPUT_BUF_SIZE ==> committed == |accepted|)     // a full ring can be read
    }

    ghost predicate Valid()
      reads this, buf
    {
      Ring() && Recorded(history, accepted, removed)
    }

    constructor (characterStream: bool)
      ensures Valid() && fresh(buf) && accepted == [] && removed == 0 && stream == characterStream
    {
      buf := new int[INPUT_BUF_SIZE];
      stream := characterStream;
      r, w, e := 0, 0, 0;
      accepted, removed, committed, history := [], 0, 0, [];
    }

    /** Store a character at the edit position. */
    method Push(ch: int)
      requires Core() && |accepted| < removed + INPUT_BUF_SIZE
      modifies this`e, this`accepted, buf
      ensures Core() && accepted == old(accepted) + [ch]
    {
      hide Holds;
      IndexSurvives(|accepted|, INPUT_BUF_SIZE);
      HoldsPush(buf[..], accepted, removed, |accepted|, ch);
      ghost var before := buf[..];
      buf[e % INPUT_BUF_SIZE] := ch;
      assert buf[..] == before[|accepted| % INPUT_BUF_SIZE := ch];
      NextCount(|accepted|);
      e := (e + 1) % WORD;
      accepted := accepted + [ch];
    }

    /**
      consoleintr: store a character, a carriage return as a newline, unless it is NUL or the
      ring is full; hand over what has been typed, by character or by line.
     */
    method Interrupt(c: int)
      requires Valid()
      modifies this, buf
      ensures Valid() && removed == old(removed)
      ensures c == 0 || |old(accepted)| == removed + INPUT_BUF_SIZE ==>
        accepted == old(accepted) && committed == old(committed)
      ensures c != 0 && |old(accepted)| < removed + INPUT_BUF_SIZE ==>
        accepted == old(accepted) + [if c == RETURN then NEWLINE else c]
      ensures committed == old(committed) || committed == |accepted|
      ensures committed == |accepted| > old(committed) && !stream ==>
        accepted[committed - 1] == NEWLINE || |accepted| == removed + INPUT_BUF_SIZE
      ensures accepted != old(accepted) && (stream || accepted[|accepted| - 1] == NEWLINE) ==> committed == |accepted|
      ensures history == old(history) + if accepted == old(accepted) then [] else [Put([accepted[|accepted| - 1]])]
    {
      hide Recorded, Holds;
      WrappedDistance(removed, |accepted|, INPUT_BUF_SIZE);
      if c != 0 && (e - r) % WORD < INPUT_BUF_SIZE {
        var ch := if c == RETURN then NEWLINE else c;
        RecordPut(history, accepted, removed, [ch]);
        Push(ch);
        history := history + [Put([ch])];
        WrappedDistance(removed, |accepted|, INPUT_BUF_SIZE);
        if stream {
          w := e;
          committed := |accepted|;
        } else if ch == NEWLINE || (e - r) % WORD == INPUT_BUF_SIZE {
          w := e;
          committed := |accepted|;
        }
      }
    }

    /** Take the character at the read position. */
    method Pop() returns (c: int)
      requires Ring() && removed < committed
      modifies this`r, this`removed
      ensures Ring() && removed == old(removed) + 1 && c == accepted[old(removed)]
    {
      hide Holds;
      IndexSurvives(removed, INPUT_BUF_SIZE);
      c := buf[r % INPUT_BUF_SIZE];
      HoldsPop(buf[..], accepted, removed, |accepted|);
      NextCount(removed);
      r := (r + 1) % WORD;
      removed := removed + 1;
    }

    /**
      consoleread, with n bytes still wanted, until it is done or must sleep: the oldest
      characters, in order, at most to the end of a line.  Once taken, a character is gone,
      even if it cannot be delivered.
     */
    method Read(n: nat, good: nat) returns (got: seq<int>, how: Outcome)
      requires Valid()
      modifies this
      ensures Valid() && accepted == old(accepted) && committed == old(committed)
      ensures Scanned(accepted, committed, old(removed), removed, got, how, n, good)
      ensures 0 <= old(removed) <= removed <= |accepted|
      ensures history == old(history) + [Take(accepted[old(removed)..removed])]
    {
      hide Recorded, Holds, Scanned;
      got, how := Scan(n, good);
      ScannedTakes(accepted, committed, old(removed), removed, got, how, n, good);
      RecordTake(history, accepted, old(removed), accepted[old(removed)..removed]);
      history := history + [Take(accepted[old(removed)..removed])];
    }

    /** The loop of consoleread. */
    method Scan(n: nat, good: nat) returns (got: seq<int>, how: Outcome)
      requires Ring()
      modifies this`r, this`removed
      ensures Ring() && Scanned(accepted, committed, old(removed), removed, got, how, n, good)
    {
      hide Holds;
      got, how := [], Done;
      while |got| < n
        invariant |got| <= n && |got| <= good && Ring()
        invariant removed == old(removed) + |got| && got == accepted[old(removed)..removed]
        invariant how == Done && forall k :: 0 <= k < |got| ==> got[k] != NEWLINE
        decreases n - |got|
      {
        WrappedDistance(removed, committed, INPUT_BUF_SIZE);
        if r == w {
          how := Blocked;
          break;
        }
        var c := Pop();
        if |got| == good {
          how := Failed;
          break;
        }
        got := got + [c];
        if c == NEWLINE { break; }
      }
    }
  }

  /** The characters taken from the console are a prefix of those stored. */
  lemma ConsoleInOrder(c: Console)
    requires c.Valid()
    ensures Takes(c.history) <= Puts(c.history) && |Puts(c.history)| - |Takes(c.history)| <= INPUT_BUF_SIZE
  {
    FirstInFirstOut(c.history);
  }

  /**
    What consoleread took between positions r0 and r: up to n characters and no more than one
    line; it sleeps only when all that was handed over is taken; one more character is lost
    when the destination fails after good of them.
   */
  ghost predicate Scanned(accepted: seq<int>, committed: int, r0: int, r: int, got: seq<int>, how: Outcome,
      n: nat, good: nat) {
    && 0 <= r0 <= r <= committed <= |accepted| && got <= accepted[r0..r] && |got| <= n && |got| <= good
    && r == r0 + |got| + (if how == Failed then 1 else 0)
    && (forall k :: 0 <= k < |got| - 1 ==> got[k] != NEWLINE)
    && (how == Done && |got| < n ==> got != [] && got[|got| - 1] == NEWLINE)
    && (how == Blocked ==> |got| < n && r == committed)
    && (how == Failed ==> |got| == good)
  }

  lemma ScannedTakes(accepted: seq<int>, committed: int, r0: int, r: int, got: seq<int>, how: Outcome, n: nat,
      good: nat)
    requires Scanned(accepted, committed, r0, r, got, how, n, good)
    ensures 0 <= r0 <= r <= |accepted|
  {
  }

  lemma NextCount(k: nat)
    ensures (k % WORD + 1) % WORD == (k + 1) % WORD
  {
  }
}
