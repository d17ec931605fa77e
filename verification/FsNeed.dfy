/** How many free blocks it takes to map a range of a file: one for each block that is not mapped, and one more where
    the indirect block is needed and there is none. */
module FsNeed {
  import opened FsSpec

  // ---------------------------------------------------------------- free blocks

  /** How many bits of the bitmap are clear. */
  function Clear(used: seq<bool>): nat {
    if used == [] then 0 else Clear(used[..|used| - 1]) + if used[|used| - 1] then 0 else 1
  }

  lemma {:induction false} ClearMark(used: seq<bool>, b: nat)
    requires b < |used| && !used[b]
    ensures Clear(used) == Clear(used[b := true]) + 1
    decreases |used|
  {
    var init := used[..|used| - 1];
    if b < |init| {
      ClearMark(init, b);
      assert used[b := true][..|used| - 1] == init[b := true];
    } else {
      assert used[b := true][..|used| - 1] == init;
    }
  }

  lemma {:induction false} ClearNone(used: seq<bool>)
    requires forall b :: 0 <= b < |used| ==> used[b]
    ensures Clear(used) == 0
    decreases |used|
  {
    if used != [] {
      ClearNone(used[..|used| - 1]);
    }
  }

  // ---------------------------------------------------------------- what a range needs

  /** What bmap needs for file block `bn`. */
  function NeedOne(blocks: seq<Block>, ip: Inode, bn: nat): nat
    requires bn < MAXFILE
  {
    if FileBlock(blocks, ip, bn) != 0 then 0 else if bn >= NDIRECT && Indirect(ip) == 0 then 2 else 1
  }

  /** The unmapped blocks from `lo` up to `hi`. */
  function Missing(blocks: seq<Block>, ip: Inode, lo: nat, hi: nat): nat
    requires hi <= MAXFILE
    decreases hi - lo
  {
    if lo >= hi then 0 else (if FileBlock(blocks, ip, lo) == 0 then 1 else 0) + Missing(blocks, ip, lo + 1, hi)
  }

  /** The free blocks it takes to map all of them. */
  function Need(blocks: seq<Block>, ip: Inode, lo: nat, hi: nat): nat
    requires hi <= MAXFILE
  {
    Missing(blocks, ip, lo, hi) + if lo < hi && hi > NDIRECT && Indirect(ip) == 0 then 1 else 0
  }

  /** From one block map to the other, block `bn` is mapped if it was not, and no later one changes. */
  predicate Maps(blocks: seq<Block>, ip: Inode, blocks': seq<Block>, ip': Inode, bn: nat)
    requires bn < MAXFILE
  {
    && (forall c :: bn < c < MAXFILE ==> FileBlock(blocks', ip', c) == FileBlock(blocks, ip, c))
    && FileBlock(blocks', ip', bn) != 0
    && (Indirect(ip') != 0 <==>
          Indirect(ip) != 0 || (FileBlock(blocks, ip, bn) == 0 && bn >= NDIRECT))
  }

  lemma {:induction false} MissingSame(blocks: seq<Block>, ip: Inode, blocks': seq<Block>, ip': Inode, lo: nat, hi: nat)
    requires hi <= MAXFILE
    requires forall c :: lo <= c < hi ==> FileBlock(blocks', ip', c) == FileBlock(blocks, ip, c)
    ensures Missing(blocks', ip', lo, hi) == Missing(blocks, ip, lo, hi)
    decreases hi - lo
  {
    hide FileBlock;
    if lo < hi {
      MissingSame(blocks, ip, blocks', ip', lo + 1, hi);
    }
  }

  lemma IndirectThere(blocks: seq<Block>, ip: Inode, bn: nat)
    requires NDIRECT <= bn < MAXFILE && FileBlock(blocks, ip, bn) != 0
    ensures Indirect(ip) != 0
  {
  }

  /** Mapping block `bn` takes what it needs off the need of every range from `bn` on. */
  lemma NeedStep(blocks: seq<Block>, ip: Inode, blocks': seq<Block>, ip': Inode, bn: nat, hi: nat)
    requires bn < hi <= MAXFILE && Maps(blocks, ip, blocks', ip', bn)
    ensures Need(blocks, ip, bn, hi) == NeedOne(blocks, ip, bn) + Need(blocks', ip', bn + 1, hi)
  {
    hide FileBlock, Indirect;
    MissingSame(blocks, ip, blocks', ip', bn + 1, hi);
    if bn >= NDIRECT && FileBlock(blocks, ip, bn) != 0 {
      IndirectThere(blocks, ip, bn);
    }
  }

  lemma NeedAtLeast(blocks: seq<Block>, ip: Inode, bn: nat, hi: nat)
    requires bn < hi <= MAXFILE
    ensures Need(blocks, ip, bn, hi) >= NeedOne(blocks, ip, bn)
  {
    hide FileBlock, Indirect;
  }

  /** A block that is mapped needs nothing. */
  lemma NeedSkip(blocks: seq<Block>, ip: Inode, bn: nat, hi: nat)
    requires bn < hi <= MAXFILE && FileBlock(blocks, ip, bn) != 0
    ensures Need(blocks, ip, bn, hi) == Need(blocks, ip, bn + 1, hi)
  {
    NeedStep(blocks, ip, blocks, ip, bn, hi);
  }

  // ---------------------------------------------------------------- the balance of a write

  /** While the range from `lo` on was mapped up to `next`, the free blocks went down by what that needed: what there
      is and what is still needed differ by as much as they did. */
  ghost predicate Balanced(used0: seq<bool>, blocks0: seq<Block>, ip0: Inode, lo: nat,
                           used: seq<bool>, blocks: seq<Block>, ip: Inode, next: nat) {
    forall hi :: next <= hi <= MAXFILE ==>
      Clear(used) + Need(blocks0, ip0, lo, hi) == Clear(used0) + Need(blocks, ip, next, hi)
  }

  lemma BalancedStep(used0: seq<bool>, blocks0: seq<Block>, ip0: Inode, lo: nat,
                     used1: seq<bool>, blocks1: seq<Block>, ip1: Inode,
                     used2: seq<bool>, blocks2: seq<Block>, ip2: Inode, bn: nat)
    requires bn < MAXFILE && Balanced(used0, blocks0, ip0, lo, used1, blocks1, ip1, bn)
    requires Maps(blocks1, ip1, blocks2, ip2, bn) && Clear(used1) == Clear(used2) + NeedOne(blocks1, ip1, bn)
    ensures Balanced(used0, blocks0, ip0, lo, used2, blocks2, ip2, bn + 1)
  {
    hide FileBlock, Indirect, Maps, Need, NeedOne, Clear;
    forall hi | bn + 1 <= hi <= MAXFILE
      ensures Clear(used2) + Need(blocks0, ip0, lo, hi) == Clear(used0) + Need(blocks2, ip2, bn + 1, hi)
    {
      NeedStep(blocks1, ip1, blocks2, ip2, bn, hi);
    }
  }

  /** Too few blocks for the next one are too few for the range. */
  lemma BalancedShort(used0: seq<bool>, blocks0: seq<Block>, ip0: Inode, lo: nat,
                      used1: seq<bool>, blocks1: seq<Block>, ip1: Inode, bn: nat, hi: nat)
    requires bn < hi <= MAXFILE && Balanced(used0, blocks0, ip0, lo, used1, blocks1, ip1, bn)
    requires Clear(used1) < NeedOne(blocks1, ip1, bn)
    ensures Clear(used0) < Need(blocks0, ip0, lo, hi)
  {
    hide FileBlock, Indirect, Need, NeedOne, Clear;
    NeedAtLeast(blocks1, ip1, bn, hi);
    assert bn <= hi <= MAXFILE;
  }

  lemma BalancedDone(used0: seq<bool>, blocks0: seq<Block>, ip0: Inode, lo: nat,
                     used1: seq<bool>, blocks1: seq<Block>, ip1: Inode, hi: nat)
    requires hi <= MAXFILE && Balanced(used0, blocks0, ip0, lo, used1, blocks1, ip1, hi)
    ensures Clear(used0) == Clear(used1) + Need(blocks0, ip0, lo, hi)
  {
  }

  /** A longer range needs no less. */
  lemma {:induction false} NeedFurther(blocks: seq<Block>, ip: Inode, lo: nat, hi: nat, hi': nat)
    requires hi <= hi' <= MAXFILE
    ensures Need(blocks, ip, lo, hi) <= Need(blocks, ip, lo, hi')
    decreases hi - lo
  {
    hide FileBlock, Indirect;
    if lo < hi {
      NeedFurther(blocks, ip, lo + 1, hi, hi');
    }
  }

  // ---------------------------------------------------------------- ranges of bytes

  /** The first file block that the `tot` bytes from `off` on do not reach, or the one `off` is in. */
  function Reach(off: nat, tot: nat): nat { if tot == 0 then off / BSIZE else (off + tot - 1) / BSIZE + 1 }

  /** The free blocks it takes to map the blocks that `n` bytes from `off` on are in. */
  function RangeNeed(blocks: seq<Block>, ip: Inode, off: nat, n: nat): nat
    requires off + n <= MAXFILE * BSIZE
  {
    if n == 0 then 0 else ReachBound(off, n); Need(blocks, ip, off / BSIZE, Reach(off, n))
  }

  lemma ReachBound(off: nat, n: nat)
    requires 0 < n && off + n <= MAXFILE * BSIZE
    ensures off / BSIZE < Reach(off, n) <= MAXFILE
  {
  }

  /** A piece that ends at the end of the block it starts in, or before, reaches one block further. */
  lemma ReachStep(off: nat, tot: nat, m: nat)
    requires 0 < m <= BSIZE - (off + tot) % BSIZE && (0 < tot ==> (off + tot) % BSIZE == 0)
    ensures Reach(off, tot) == (off + tot) / BSIZE && Reach(off, tot + m) == (off + tot) / BSIZE + 1
  {
    var o := off + tot;
    assert o == o / BSIZE * BSIZE + o % BSIZE;
    assert (o + m - 1) / BSIZE == o / BSIZE;
    assert tot > 0 ==> (o - 1) / BSIZE == o / BSIZE - 1;
  }

  lemma ReachGrows(off: nat, tot: nat, n: nat)
    requires tot <= n && off + n <= MAXFILE * BSIZE
    ensures 0 < n ==> Reach(off, tot) <= Reach(off, n) <= MAXFILE
    ensures tot < n && (0 < tot ==> (off + tot) % BSIZE == 0) ==> Reach(off, tot) < Reach(off, n)
  {
  }
}
