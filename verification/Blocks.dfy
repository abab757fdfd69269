/**
  Disk blocks and the on-disk log format of log.c.

  A block is BSIZE bytes, seen as 256 words.  The log is a header block at
  `start` (word 0 is the number n of logged blocks, words 1..n their home block
  numbers) followed by LOGBLOCKS data blocks.
 */
module Blocks {
  import opened Params

  type Block = b: seq<int> | |b| == 256 witness seq(256, i => 0)

  function ZeroBlock(): Block {
    seq(256, i => 0)
  }

  /** Blocks outside the log area are the ones recovery restores. */
  predicate Home(b: int, start: nat) {
    0 <= b && (b < start || b > start + LOGBLOCKS)
  }

  /** The log area lies inside the disk. */
  predicate LogFits(d: seq<Block>, start: nat) {
    start + LOGBLOCKS < |d|
  }

  /** The block numbers of a logged transaction: few, distinct, on the disk and outside the log. */
  ghost predicate GoodList(l: seq<int>, d: seq<Block>, start: nat) {
    && |l| <= LOGBLOCKS
    && Distinct(l)
    && (forall i :: 0 <= i < |l| ==> Home(l[i], start) && l[i] < |d|)
  }

  function HeadCount(h: Block): int { h[0] }

  function HeadList(h: Block): (l: seq<int>)
    requires 0 <= HeadCount(h) <= LOGBLOCKS
  {
    h[1..1 + HeadCount(h)]
  }

  /** What write_head leaves in the header buffer: the words past entry n keep their old contents. */
  function HeadImage(old_: Block, l: seq<int>): (h: Block)
    requires |l| <= LOGBLOCKS
    ensures HeadCount(h) == |l| && HeadList(h) == l
    ensures h[1 + |l|..] == old_[1 + |l|..]
  {
    [|l|] + l + old_[1 + |l|..]
  }

  /** A header a boot can find: written by write_head (or zeroed by mkfs), never garbage. */
  ghost predicate GoodHead(d: seq<Block>, start: nat) {
    && LogFits(d, start)
    && 0 <= HeadCount(d[start]) <= LOGBLOCKS
    && GoodList(HeadList(d[start]), d, start)
  }

  /** Contents of home block b once the logged blocks l are copied over it. */
  ghost function Overlay(d: seq<Block>, start: nat, l: seq<int>, b: int): Block
    requires LogFits(d, start) && |l| <= LOGBLOCKS && 0 <= b < |d|
  {
    if b in l then
      var i :| 0 <= i < |l| && l[i] == b;
      d[start + 1 + i]
    else d[b]
  }

  lemma OverlayAt(d: seq<Block>, start: nat, l: seq<int>, i: nat)
    requires LogFits(d, start) && GoodList(l, d, start) && i < |l|
    ensures Overlay(d, start, l, l[i]) == d[start + 1 + i]
  {
  }

  /** What the disk means: the home blocks as recovery would leave them after a crash now. */
  ghost function Recovered(d: seq<Block>, start: nat): map<int, Block>
    requires GoodHead(d, start)
  {
    map b | 0 <= b < |d| && Home(b, start) :: Overlay(d, start, HeadList(d[start]), b)
  }
}
