/** The user-level allocator of umalloc.c (section 8.7 of The C Programming Language, 2nd ed.).

    Addresses are counted in units of one Header.  `base` is a static variable and lies below
    everything sbrk returns.  The free list is a ring through the headers in memory; the ghost
    list `blocks` is that ring read from `base`. */
module Umalloc {
  import opened Common
  import opened Break

  const HEADER: nat := 8                 // sizeof(Header)
  const MIN_CORE: nat := 4096            // fewest units morecore asks for

  datatype Header = Header(ptr: nat, size: nat)

  datatype Block = Block(addr: nat, size: nat) {
    function End(): nat { addr + size }
    predicate Has(x: nat) { addr <= x < addr + size }
  }

  // ---------------------------------------------------------------- request size

  /** malloc's unit count, in 32-bit arithmetic. */
  function Units(nbytes: nat): nat {
    ((nbytes + HEADER - 1) % UINT) / HEADER + 1
  }

  /** What sbrk is asked for when `nu` units are wanted: the product is a 32-bit unsigned number, and the
      parameter is a 32-bit signed one. */
  function Request(nu: nat): int { Signed(nu * HEADER % UINT) }

  /** The largest request that is served as it should be. */
  const LIMIT: nat := 0x7FFF_FFF0

  /** A block of that many units holds its header and nbytes bytes. */
  predicate Roomy(nbytes: nat) { (Units(nbytes) - 1) * HEADER >= nbytes }

  /** Both computations are what they mean if and only if the request is at most LIMIT: the rounding does
      not wrap, and sbrk is asked for as many bytes as the units take. */
  lemma LimitIff(nbytes: nat)
    requires nbytes < UINT
    ensures Roomy(nbytes) && Request(Units(nbytes)) == Units(nbytes) * HEADER <==> nbytes <= LIMIT
  {
  }

  /** Above LIMIT there are two families: sbrk is asked for nothing or less, or, for the largest requests,
      the rounding wraps and a single unit is asked for. */
  lemma AboveLimit(nbytes: nat)
    requires LIMIT < nbytes < UINT
    ensures if Units(nbytes) == 1 then !Roomy(nbytes)
            else Units(nbytes) >= KERNBASE / HEADER && Request(Units(nbytes)) <= 0
  {
  }

  /** The first failing input of the one family: asked for less than nothing, sbrk succeeds and gives
      nothing, wherever the break is. */
  lemma FirstTooLarge(sz: nat, room: bool)
    requires 0 < sz < KERNBASE
    ensures Request(Units(0x7FFF_FFF1)) == -0x8000_0000
    ensures Grow(sz, Request(Units(0x7FFF_FFF1)), room) == Outcome(true, sz, sz)
  {
  }

  /** The failing input of the other: the largest request gets a block with no room at all. */
  lemma LargestRequestGetsNothing()
    ensures Units(UINT - 1) == 1
  {
  }

  // ---------------------------------------------------------------- block lists

  /** In address order, with a gap between any two neighbours. */
  ghost predicate Sorted(bs: seq<Block>) {
    forall i, j :: 0 <= i < j < |bs| ==> bs[i].End() < bs[j].addr
  }

  function NextAddr(bs: seq<Block>, i: nat): nat
    requires i < |bs|
  {
    if i + 1 < |bs| then bs[i + 1].addr else bs[0].addr
  }

  ghost predicate LinkedAt(mem: map<nat, Header>, bs: seq<Block>, i: nat)
    requires i < |bs|
  {
    bs[i].addr in mem && mem[bs[i].addr] == Header(NextAddr(bs, i), bs[i].size)
  }

  /** The headers in memory link the blocks into a ring. */
  ghost predicate Linked(mem: map<nat, Header>, bs: seq<Block>) {
    forall i :: 0 <= i < |bs| ==> LinkedAt(mem, bs, i)
  }

  ghost predicate RingOk(mem: map<nat, Header>, base: nat, bs: seq<Block>) {
    && |bs| >= 1 && bs[0] == Block(base, 0)
    && Sorted(bs) && Linked(mem, bs)
    && forall i :: 1 <= i < |bs| ==> bs[i].size >= 1
  }

  /** Some block of the list holds unit `x`. */
  ghost predicate Covered(bs: seq<Block>, x: nat) {
    exists i :: 0 <= i < |bs| && bs[i].Has(x)
  }

  ghost predicate IsLive(live: map<nat, nat>, x: nat) {
    exists b :: b in live && b <= x < b + live[b]
  }

  /** Every unit obtained from sbrk is in exactly one block, free or live. */
  ghost predicate Tiled(bs: seq<Block>, live: map<nat, nat>, units: seq<Block>) {
    && (forall x :: Covered(units, x) <==> Covered(bs, x) || IsLive(live, x))
    && (forall x :: !(Covered(bs, x) && IsLive(live, x)))
    && (forall b, c :: b in live && c in live && b < c ==> b + live[b] <= c)
    && (forall b :: b in live ==> live[b] >= 1)
  }

  /** The index of the last block below `a`. */
  ghost predicate IsSlot(bs: seq<Block>, a: nat, k: nat) {
    && k < |bs| && bs[k].addr < a
    && forall i :: k < i < |bs| ==> a < bs[i].addr
  }

  lemma {:induction false} FindSlot(bs: seq<Block>, a: nat, n: nat) returns (k: nat)
    requires Sorted(bs) && 1 <= n <= |bs| && bs[0].addr < a
    requires forall i :: 0 <= i < |bs| ==> bs[i].addr != a
    requires forall i :: n <= i < |bs| ==> a < bs[i].addr
    ensures IsSlot(bs, a, k)
  {
    if bs[n - 1].addr < a {
      k := n - 1;
    } else {
      k := FindSlot(bs, a, n - 1);
    }
  }

  // ---------------------------------------------------------------- inserting a block

  /** The list after free(b) with `k` the block before it, before joining with that block. */
  ghost function JoinUpper(bs: seq<Block>, k: nat, b: Block): seq<Block>
    requires k < |bs|
  {
    if k + 1 < |bs| && b.End() == bs[k + 1].addr
    then bs[..k + 1] + [Block(b.addr, b.size + bs[k + 1].size)] + bs[k + 2..]
    else bs[..k + 1] + [b] + bs[k + 1..]
  }

  ghost function JoinLower(bs: seq<Block>, k: nat): seq<Block>
    requires k + 1 < |bs|
  {
    if bs[k].End() == bs[k + 1].addr
    then bs[..k] + [Block(bs[k].addr, bs[k].size + bs[k + 1].size)] + bs[k + 2..]
    else bs
  }

  ghost function Inserted(bs: seq<Block>, k: nat, b: Block): seq<Block>
    requires k < |bs|
  {
    JoinLower(JoinUpper(bs, k, b), k)
  }

  /** Sorted, except that blocks k and k + 1 may touch. */
  ghost predicate AlmostSorted(bs: seq<Block>, k: nat) {
    forall i, j :: 0 <= i < j < |bs| ==>
      if i == k && j == k + 1 then bs[i].End() <= bs[j].addr else bs[i].End() < bs[j].addr
  }

  /** JoinUpper element by element. */
  ghost predicate IsJoinUpper(bs: seq<Block>, k: nat, b: Block, r: seq<Block>, joined: bool)
    requires k < |bs|
  {
    && joined == (k + 1 < |bs| && b.End() == bs[k + 1].addr)
    && |r| == (if joined then |bs| else |bs| + 1)
    && (forall i :: 0 <= i <= k ==> r[i] == bs[i])
    && r[k + 1] == (if joined then Block(b.addr, b.size + bs[k + 1].size) else b)
    && (forall i :: k + 2 <= i < |r| ==> r[i] == bs[if joined then i else i - 1])
  }

  lemma JoinUpperAt(bs: seq<Block>, k: nat, b: Block)
    requires k < |bs|
    ensures IsJoinUpper(bs, k, b, JoinUpper(bs, k, b), k + 1 < |bs| && b.End() == bs[k + 1].addr)
  {
  }

  lemma JoinUpperSorted(bs: seq<Block>, k: nat, b: Block, r: seq<Block>, joined: bool)
    requires Sorted(bs) && IsSlot(bs, b.addr, k) && b.size >= 1
    requires bs[k].End() <= b.addr && (k + 1 < |bs| ==> b.End() <= bs[k + 1].addr)
    requires IsJoinUpper(bs, k, b, r, joined)
    ensures AlmostSorted(r, k)
  {
    forall i, j | 0 <= i < j < |r|
      ensures if i == k && j == k + 1 then r[i].End() <= r[j].addr else r[i].End() < r[j].addr
    {
      var m := if joined then j else j - 1;
      if i <= k && j > k + 1 { assert bs[i].End() < bs[m].addr; }
      if i == k + 1 && !joined && m > k + 1 { assert bs[k + 1].End() < bs[m].addr; }
    }
  }

  lemma JoinUpperFree(bs: seq<Block>, k: nat, b: Block, r: seq<Block>, joined: bool, x: nat)
    requires k < |bs| && IsJoinUpper(bs, k, b, r, joined)
    ensures Covered(r, x) <==> Covered(bs, x) || b.Has(x)
  {
    if Covered(bs, x) {
      var i :| 0 <= i < |bs| && bs[i].Has(x);
      assert r[if i <= k || joined then i else i + 1].Has(x);
    }
    if b.Has(x) { assert r[k + 1].Has(x); }
    if Covered(r, x) {
      var i :| 0 <= i < |r| && r[i].Has(x);
      if i <= k { assert bs[i].Has(x); }
      else if i == k + 1 { assert b.Has(x) || (joined && bs[k + 1].Has(x)); }
      else { assert bs[if joined then i else i - 1].Has(x); }
    }
  }

  lemma JoinUpperOk(bs: seq<Block>, k: nat, b: Block)
    requires Sorted(bs) && IsSlot(bs, b.addr, k) && b.size >= 1
    requires bs[k].End() <= b.addr && (k + 1 < |bs| ==> b.End() <= bs[k + 1].addr)
    ensures var r := JoinUpper(bs, k, b);
            && AlmostSorted(r, k) && k + 1 < |r|
            && forall x :: Covered(r, x) <==> Covered(bs, x) || b.Has(x)
  {
    var r := JoinUpper(bs, k, b);
    var joined := k + 1 < |bs| && b.End() == bs[k + 1].addr;
    JoinUpperAt(bs, k, b);
    JoinUpperSorted(bs, k, b, r, joined);
    hide JoinUpper, AlmostSorted, Covered;
    forall x ensures Covered(r, x) <==> Covered(bs, x) || b.Has(x) {
      JoinUpperFree(bs, k, b, r, joined, x);
    }
  }

  lemma JoinLowerAt(bs: seq<Block>, k: nat)
    requires k + 1 < |bs| && bs[k].End() == bs[k + 1].addr
    ensures var r := JoinLower(bs, k);
            && |r| == |bs| - 1
            && (forall i :: 0 <= i < k ==> r[i] == bs[i])
            && r[k] == Block(bs[k].addr, bs[k].size + bs[k + 1].size)
            && (forall i :: k < i < |r| ==> r[i] == bs[i + 1])
  {
  }

  lemma JoinLowerFree(bs: seq<Block>, k: nat, x: nat)
    requires k + 1 < |bs| && bs[k].End() == bs[k + 1].addr
    ensures Covered(JoinLower(bs, k), x) <==> Covered(bs, x)
  {
    var r := JoinLower(bs, k);
    JoinLowerAt(bs, k);
    hide JoinLower;
    if Covered(bs, x) {
      var i :| 0 <= i < |bs| && bs[i].Has(x);
      assert r[if i <= k then i else i - 1].Has(x);
    }
    if Covered(r, x) {
      var i :| 0 <= i < |r| && r[i].Has(x);
      if i < k { assert bs[i].Has(x); }
      else if i == k { assert bs[k].Has(x) || bs[k + 1].Has(x); }
      else { assert bs[i + 1].Has(x); }
    }
  }

  lemma JoinLowerOk(bs: seq<Block>, k: nat)
    requires k + 1 < |bs| && AlmostSorted(bs, k)
    ensures Sorted(JoinLower(bs, k))
    ensures forall x :: Covered(JoinLower(bs, k), x) <==> Covered(bs, x)
  {
    var r := JoinLower(bs, k);
    if bs[k].End() == bs[k + 1].addr {
      JoinLowerAt(bs, k);
      hide JoinLower, Covered;
      forall x ensures Covered(r, x) <==> Covered(bs, x) {
        JoinLowerFree(bs, k, x);
      }
      forall i, j | 0 <= i < j < |r| ensures r[i].End() < r[j].addr {
        var i', j' := if i <= k then i else i + 1, if j <= k then j else j + 1;
        assert bs[i'].End() < bs[j'].addr || (i' == k && j' == k + 1);
        if i == k { assert bs[k + 1].End() < bs[j'].addr; }
      }
    }
  }

  /** Freeing `b` keeps the list sorted with gaps and adds exactly the units of `b`. */
  lemma InsertedOk(bs: seq<Block>, k: nat, b: Block)
    requires Sorted(bs) && IsSlot(bs, b.addr, k) && b.size >= 1
    requires bs[k].End() <= b.addr && (k + 1 < |bs| ==> b.End() <= bs[k + 1].addr)
    ensures Sorted(Inserted(bs, k, b))
    ensures forall x :: Covered(Inserted(bs, k, b), x) <==> Covered(bs, x) || b.Has(x)
  {
    JoinUpperOk(bs, k, b);
    JoinLowerOk(JoinUpper(bs, k, b), k);
    hide JoinUpper, JoinLower, AlmostSorted, Sorted, Covered;
  }

  // ---------------------------------------------------------------- relinking headers

  /** The header free() writes into `b`, whose predecessor on the ring is block `k`. */
  ghost function UpperHeader(mem: map<nat, Header>, bs: seq<Block>, k: nat, b: Block): Header
    requires k < |bs| && NextAddr(bs, k) in mem
  {
    var nxt := NextAddr(bs, k);
    if b.End() == nxt then Header(mem[nxt].ptr, b.size + mem[nxt].size) else Header(nxt, b.size)
  }

  lemma UpperJoined(mem: map<nat, Header>, bs: seq<Block>, k: nat, b: Block)
    requires Linked(mem, bs) && IsSlot(bs, b.addr, k) && b.size >= 1 && bs[0].addr < b.addr
    ensures NextAddr(bs, k) in mem
    ensures b.End() == NextAddr(bs, k) <==> k + 1 < |bs| && b.End() == bs[k + 1].addr
    ensures k + 1 < |bs| && b.End() == bs[k + 1].addr ==>
              UpperHeader(mem, bs, k, b) == Header(NextAddr(bs, k + 1), b.size + bs[k + 1].size)
  {
    assert LinkedAt(mem, bs, if k + 1 < |bs| then k + 1 else 0);
  }

  lemma LinkUpperAt(mem: map<nat, Header>, m: map<nat, Header>, bs: seq<Block>, k: nat, b: Block,
                    r: seq<Block>, joined: bool, i: nat)
    requires Sorted(bs) && IsSlot(bs, b.addr, k) && IsJoinUpper(bs, k, b, r, joined) && i < |r|
    requires forall a :: a in mem ==> a in m && (a != b.addr && a != bs[k].addr ==> m[a] == mem[a])
    requires b.addr in m && bs[k].addr in m && m[bs[k].addr] == Header(b.addr, bs[k].size)
    requires m[b.addr] == if joined then Header(NextAddr(bs, k + 1), b.size + bs[k + 1].size)
                          else Header(NextAddr(bs, k), b.size)
    requires i < k ==> LinkedAt(mem, bs, i)
    requires i > k + 1 ==> LinkedAt(mem, bs, if joined then i else i - 1)
    ensures LinkedAt(m, r, i)
  {
    if i < k {
      assert bs[i].End() < bs[k].addr;
    } else if i > k + 1 {
      assert bs[k].End() < bs[if joined then i else i - 1].addr;
    }
  }

  lemma LinkUpper(mem: map<nat, Header>, bs: seq<Block>, k: nat, b: Block)
    requires Sorted(bs) && Linked(mem, bs) && IsSlot(bs, b.addr, k) && b.size >= 1
    requires bs[0].addr < b.addr
    ensures NextAddr(bs, k) in mem
    ensures b.End() == NextAddr(bs, k) <==> k + 1 < |bs| && b.End() == bs[k + 1].addr
    ensures Linked(mem[b.addr := UpperHeader(mem, bs, k, b)][bs[k].addr := Header(b.addr, bs[k].size)],
                   JoinUpper(bs, k, b))
  {
    UpperJoined(mem, bs, k, b);
    JoinUpperAt(bs, k, b);
    var m := mem[b.addr := UpperHeader(mem, bs, k, b)][bs[k].addr := Header(b.addr, bs[k].size)];
    var r := JoinUpper(bs, k, b);
    var joined := k + 1 < |bs| && b.End() == bs[k + 1].addr;
    hide JoinUpper, LinkedAt, NextAddr, Sorted;
    forall i | 0 <= i < |r| ensures LinkedAt(m, r, i) {
      if i < k { assert LinkedAt(mem, bs, i); }
      if i > k + 1 { assert LinkedAt(mem, bs, if joined then i else i - 1); }
      LinkUpperAt(mem, m, bs, k, b, r, joined, i);
    }
  }

  lemma LinkLowerAt(mem: map<nat, Header>, m: map<nat, Header>, bs: seq<Block>, k: nat,
                    r: seq<Block>, i: nat)
    requires AlmostSorted(bs, k) && k + 1 < |bs| && bs[k].size + bs[k + 1].size >= 1
    requires bs[k].End() == bs[k + 1].addr && r == JoinLower(bs, k) && i < |r|
    requires LinkedAt(mem, bs, k) && LinkedAt(mem, bs, k + 1)
    requires m == mem[bs[k].addr := Header(mem[bs[k + 1].addr].ptr, bs[k].size + bs[k + 1].size)]
    requires i < k ==> LinkedAt(mem, bs, i)
    requires i > k ==> LinkedAt(mem, bs, i + 1)
    ensures LinkedAt(m, r, i)
  {
    JoinLowerAt(bs, k);
    hide JoinLower;
    if i < k {
      assert bs[i].End() < bs[k].addr;
    } else if i > k {
      assert bs[k].End() < bs[i + 1].addr;
    }
  }

  lemma LinkLower(mem: map<nat, Header>, bs: seq<Block>, k: nat)
    requires AlmostSorted(bs, k) && Linked(mem, bs) && k + 1 < |bs| && bs[k].End() == bs[k + 1].addr
    requires bs[k + 1].size >= 1
    ensures var p, q := bs[k].addr, bs[k + 1].addr;
            && p in mem && q in mem
            && Linked(mem[p := Header(mem[q].ptr, mem[p].size + mem[q].size)], JoinLower(bs, k))
  {
    var p, q := bs[k].addr, bs[k + 1].addr;
    assert LinkedAt(mem, bs, k) && LinkedAt(mem, bs, k + 1);
    var m := mem[p := Header(mem[q].ptr, mem[p].size + mem[q].size)];
    JoinLowerAt(bs, k);
    assert m == mem[p := Header(mem[q].ptr, bs[k].size + bs[k + 1].size)];
    hide JoinLower, LinkedAt, AlmostSorted;
    forall i | 0 <= i < |JoinLower(bs, k)| ensures LinkedAt(m, JoinLower(bs, k), i) {
      if i < k { assert LinkedAt(mem, bs, i); }
      if i > k { assert LinkedAt(mem, bs, i + 1); }
      LinkLowerAt(mem, m, bs, k, JoinLower(bs, k), i);
    }
  }

  // ---------------------------------------------------------------- taking units out of a block

  lemma TakeWhole(mem: map<nat, Header>, base: nat, bs: seq<Block>, k: nat)
    requires RingOk(mem, base, bs) && 1 <= k < |bs|
    ensures var r := bs[..k] + bs[k + 1..];
            var p := bs[k - 1].addr;
            && RingOk(mem[p := Header(NextAddr(bs, k), bs[k - 1].size)], base, r)
            && forall x :: Covered(r, x) <==> Covered(bs, x) && !bs[k].Has(x)
  {
    var r := bs[..k] + bs[k + 1..];
    assert forall i :: 0 <= i < |r| ==> r[i] == bs[if i < k then i else i + 1];
    var m := mem[bs[k - 1].addr := Header(NextAddr(bs, k), bs[k - 1].size)];
    forall i | 0 <= i < |r| ensures LinkedAt(m, r, i) {
      var o := if i < k then i else i + 1;
      assert LinkedAt(mem, bs, o);
      if o < k - 1 { assert bs[o].End() < bs[k - 1].addr; }
      if o > k - 1 { assert bs[k - 1].End() < bs[o].addr; }
    }
    forall x ensures Covered(r, x) <==> Covered(bs, x) && !bs[k].Has(x) {
      TakeWholeFree(bs, k, r, x);
    }
  }

  lemma TakeWholeFree(bs: seq<Block>, k: nat, r: seq<Block>, x: nat)
    requires Sorted(bs) && k < |bs| && |r| == |bs| - 1
    requires forall i :: 0 <= i < |r| ==> r[i] == bs[if i < k then i else i + 1]
    ensures Covered(r, x) <==> Covered(bs, x) && !bs[k].Has(x)
  {
    if Covered(bs, x) && !bs[k].Has(x) {
      var i :| 0 <= i < |bs| && bs[i].Has(x);
      assert r[if i < k then i else i - 1].Has(x);
    }
    if Covered(r, x) {
      var i :| 0 <= i < |r| && r[i].Has(x);
      var o := if i < k then i else i + 1;
      assert bs[o].Has(x);
      if o < k { assert bs[o].End() < bs[k].addr; } else { assert bs[k].End() < bs[o].addr; }
    }
  }

  lemma TakeTail(mem: map<nat, Header>, base: nat, bs: seq<Block>, k: nat, n: nat)
    requires RingOk(mem, base, bs) && 1 <= k < |bs| && 1 <= n < bs[k].size
    ensures var b := Block(bs[k].addr, bs[k].size - n);
            && RingOk(mem[b.addr := Header(NextAddr(bs, k), b.size)], base, bs[k := b])
            && forall x :: Covered(bs[k := b], x) <==>
                 Covered(bs, x) && !Block(b.End(), n).Has(x)
  {
    var b := Block(bs[k].addr, bs[k].size - n);
    var r := bs[k := b];
    var m := mem[b.addr := Header(NextAddr(bs, k), b.size)];
    forall i | 0 <= i < |r| ensures LinkedAt(m, r, i) {
      assert LinkedAt(mem, bs, i);
      if i < k { assert bs[i].End() < bs[k].addr; }
      if i > k { assert bs[k].End() < bs[i].addr; }
    }
    assert Sorted(r);
    forall x ensures Covered(r, x) <==> Covered(bs, x) && !Block(b.End(), n).Has(x) {
      TakeTailFree(bs, k, n, x);
    }
  }

  lemma TakeTailFree(bs: seq<Block>, k: nat, n: nat, x: nat)
    requires Sorted(bs) && k < |bs| && 1 <= n < bs[k].size
    ensures var b := Block(bs[k].addr, bs[k].size - n);
            Covered(bs[k := b], x) <==> Covered(bs, x) && !Block(b.End(), n).Has(x)
  {
    var b := Block(bs[k].addr, bs[k].size - n);
    var r := bs[k := b];
    if Covered(bs, x) && !Block(b.End(), n).Has(x) {
      var i :| 0 <= i < |bs| && bs[i].Has(x);
      assert r[i].Has(x);
    }
    if Covered(r, x) {
      var i :| 0 <= i < |r| && r[i].Has(x);
      assert bs[i].Has(x);
      if i < k { assert bs[i].End() < bs[k].addr; }
      if i > k { assert bs[k].End() < bs[i].addr; }
    }
  }

  /** The memory after free() has relinked `b` behind block `k`. */
  ghost function FreedMem(mem: map<nat, Header>, bs: seq<Block>, k: nat, b: Block): map<nat, Header>
    requires k < |bs| && NextAddr(bs, k) in mem
  {
    var h := UpperHeader(mem, bs, k, b);
    var m := mem[b.addr := h];
    if bs[k].End() == b.addr then m[bs[k].addr := Header(h.ptr, bs[k].size + h.size)]
    else m[bs[k].addr := Header(b.addr, bs[k].size)]
  }

  lemma FreeRing(mem: map<nat, Header>, base: nat, bs: seq<Block>, k: nat, b: Block)
    requires RingOk(mem, base, bs) && IsSlot(bs, b.addr, k) && b.size >= 1 && base < b.addr
    requires bs[k].End() <= b.addr && (k + 1 < |bs| ==> b.End() <= bs[k + 1].addr)
    ensures NextAddr(bs, k) in mem
    ensures RingOk(FreedMem(mem, bs, k, b), base, Inserted(bs, k, b))
    ensures k < |Inserted(bs, k, b)| && Inserted(bs, k, b)[k].addr == bs[k].addr
    ensures forall x :: Covered(Inserted(bs, k, b), x) <==> Covered(bs, x) || b.Has(x)
  {
    hide JoinUpper, Sorted, Covered, AlmostSorted, LinkedAt, UpperHeader, Linked;
    InsertedOk(bs, k, b);
    LinkUpper(mem, bs, k, b);
    var r := JoinUpper(bs, k, b);
    var joined := k + 1 < |bs| && b.End() == bs[k + 1].addr;
    JoinUpperAt(bs, k, b);
    JoinUpperOk(bs, k, b);
    var h := UpperHeader(mem, bs, k, b);
    var m := mem[b.addr := h][bs[k].addr := Header(b.addr, bs[k].size)];
    assert r[k] == bs[k] && r[k + 1].addr == b.addr && m[b.addr] == h;
    assert m[bs[k].addr := Header(h.ptr, bs[k].size + h.size)] ==
           mem[b.addr := h][bs[k].addr := Header(h.ptr, bs[k].size + h.size)];
    if bs[k].End() == b.addr {
      LinkLower(m, r, k);
      JoinLowerAt(r, k);
    }
  }

  // ---------------------------------------------------------------- tiling

  /** The units of a live block are not free. */
  lemma LiveIsApart(bs: seq<Block>, live: map<nat, nat>, units: seq<Block>, bp: nat)
    requires Tiled(bs, live, units) && bp in live
    ensures live[bp] >= 1 && Covered(units, bp)
    ensures forall x :: Block(bp, live[bp]).Has(x) ==> !Covered(bs, x)
  {
    forall x | Block(bp, live[bp]).Has(x) ensures !Covered(bs, x) {
      assert IsLive(live, x);
    }
    assert Block(bp, live[bp]).Has(bp) && IsLive(live, bp);
  }

  /** No live header lies on the ring. */
  lemma RingIsApart(mem: map<nat, Header>, base: nat, bs: seq<Block>, live: map<nat, nat>, units: seq<Block>)
    requires RingOk(mem, base, bs) && Tiled(bs, live, units) && !Covered(units, base)
    ensures forall i :: 0 <= i < |bs| ==> bs[i].addr !in live && bs[i].addr >= base
  {
    forall i | 0 <= i < |bs| ensures bs[i].addr !in live && bs[i].addr >= base {
      var a := bs[i].addr;
      assert a in live ==> IsLive(live, a);
      assert i > 0 ==> bs[i].Has(a);
      assert i > 0 ==> Covered(bs, a);
      assert i > 0 ==> bs[0].End() < a;
    }
  }

  lemma LiveRemoved(bs: seq<Block>, bs': seq<Block>, live: map<nat, nat>, units: seq<Block>, bp: nat)
    requires Tiled(bs, live, units) && bp in live
    requires forall x :: Covered(bs', x) <==> Covered(bs, x) || Block(bp, live[bp]).Has(x)
    ensures Tiled(bs', live - {bp}, units)
  {
    forall x: nat ensures IsLive(live - {bp}, x) <==> IsLive(live, x) && !Block(bp, live[bp]).Has(x) {
      if IsLive(live, x) && !Block(bp, live[bp]).Has(x) {
        var b :| b in live && b <= x < b + live[b];
        assert b in live - {bp};
      }
      if IsLive(live - {bp}, x) {
        var b :| b in live - {bp} && b <= x < b + (live - {bp})[b];
        assert b in live && (b < bp || bp < b);
      }
    }
    assert forall x :: Block(bp, live[bp]).Has(x) ==> IsLive(live, x);
    hide Covered, IsLive;
  }

  lemma LiveAdded(bs: seq<Block>, bs': seq<Block>, live: map<nat, nat>, units: seq<Block>, b: Block)
    requires Tiled(bs, live, units) && b.size >= 1
    requires forall x :: b.Has(x) ==> Covered(bs, x)
    requires forall x :: Covered(bs', x) <==> Covered(bs, x) && !b.Has(x)
    ensures Tiled(bs', live[b.addr := b.size], units) && b.addr !in live
  {
    var live' := live[b.addr := b.size];
    assert b.Has(b.addr);
    assert b.addr in live ==> IsLive(live, b.addr);
    forall x: nat ensures IsLive(live', x) <==> IsLive(live, x) || b.Has(x) {
      if IsLive(live, x) {
        var c :| c in live && c <= x < c + live[c];
        assert c in live' && live'[c] == live[c];
      }
      if b.Has(x) { assert b.addr in live'; }
    }
    forall c | c in live ensures if c < b.addr then c + live[c] <= b.addr else b.End() <= c {
      assert c < b.addr < c + live[c] ==> IsLive(live, b.addr);
      assert IsLive(live, c);
      assert !b.Has(c);
    }
    hide Covered, IsLive;
  }

  /** Fresh memory above everything obtained before touches no block. */
  lemma CoreIsApart(mem: map<nat, Header>, base: nat, bs: seq<Block>, live: map<nat, nat>,
                    units: seq<Block>, brk: nat, hp: nat, h: Header)
    requires RingOk(mem, base, bs) && Tiled(bs, live, units) && hp >= brk > base
    requires forall x: nat :: Covered(units, x) ==> base < x < brk
    ensures hp !in live && RingOk(mem[hp := h], base, bs)
    ensures forall x :: Block(hp, h.size).Has(x) ==> !Covered(bs, x)
    ensures forall i :: 0 <= i < |bs| ==> bs[i].addr !in live && bs[i].addr != hp && bs[i].addr >= base
  {
    RingIsApart(mem, base, bs, live, units);
    forall i | 0 <= i < |bs| ensures bs[i].addr != hp {
      assert i > 0 ==> bs[i].Has(bs[i].addr);
      assert i > 0 ==> Covered(bs, bs[i].addr);
    }
    RingFrame(mem, base, bs, hp, h);
    assert hp in live ==> live[hp] >= 1;
    assert hp in live ==> IsLive(live, hp);
  }

  lemma CoreAdded(bs: seq<Block>, bs': seq<Block>, live: map<nat, nat>, units: seq<Block>, hp: nat, n: nat)
    requires Tiled(bs, live, units) && forall x: nat :: Covered(units, x) ==> x < hp
    requires forall x :: Covered(bs', x) <==> Covered(bs, x) || Block(hp, n).Has(x)
    ensures Tiled(bs', live, units + [Block(hp, n)])
    ensures forall x: nat :: Covered(units + [Block(hp, n)], x) <==> Covered(units, x) || Block(hp, n).Has(x)
  {
    forall x: nat ensures Covered(units + [Block(hp, n)], x) <==> Covered(units, x) || Block(hp, n).Has(x) {
      CoveredSnoc(units, Block(hp, n), x);
    }
    hide Covered, IsLive;
  }

  lemma CoveredSnoc(bs: seq<Block>, b: Block, x: nat)
    ensures Covered(bs + [b], x) <==> Covered(bs, x) || b.Has(x)
  {
    var r := bs + [b];
    if Covered(bs, x) {
      var i :| 0 <= i < |bs| && bs[i].Has(x);
      assert r[i].Has(x);
    }
    assert r[|bs|] == b;
  }

  /** A run of free units lies in one free block, because blocks do not touch. */
  lemma RunIsOneBlock(mem: map<nat, Header>, base: nat, bs: seq<Block>, a: nat, n: nat)
    requires RingOk(mem, base, bs) && n >= 1 && forall x :: a <= x < a + n ==> Covered(bs, x)
    ensures exists i :: 0 <= i < |bs| && bs[i].size >= n
  {
    assert Covered(bs, a);
    var i :| 0 <= i < |bs| && bs[i].Has(a);
    forall j | 0 <= j < |bs| ensures !bs[j].Has(bs[i].End()) {
      assert i < j ==> bs[i].End() < bs[j].addr;
      assert j < i ==> bs[j].End() < bs[i].addr;
    }
    assert !Covered(bs, bs[i].End());
  }

  lemma BlockCovered(bs: seq<Block>, i: nat)
    requires i < |bs|
    ensures forall x :: bs[i].Has(x) ==> Covered(bs, x)
  {
  }

  lemma InsideIsNoAddr(mem: map<nat, Header>, base: nat, bs: seq<Block>, i: nat, a: nat)
    requires RingOk(mem, base, bs) && i < |bs| && bs[i].addr < a < bs[i].End()
    ensures forall j :: 0 <= j < |bs| ==> bs[j].addr != a
  {
    forall j | 0 <= j < |bs| ensures bs[j].addr != a {
      assert j < i ==> bs[j].End() < bs[i].addr;
      assert i < j ==> bs[i].End() < bs[j].addr;
    }
  }

  /** The header of every block handed out still holds its size. */
  ghost predicate Sized(mem: map<nat, Header>, live: map<nat, nat>) {
    forall b :: b in live ==> b in mem && mem[b].size == live[b]
  }

  lemma SizedStore(mem: map<nat, Header>, live: map<nat, nat>, a: nat, h: Header)
    requires Sized(mem, live) && a !in live
    ensures Sized(mem[a := h], live)
  {
  }

  lemma SizedFrame(mem: map<nat, Header>, mem': map<nat, Header>, live: map<nat, nat>, a: nat, b: nat)
    requires Sized(mem, live) && a !in live && b !in live
    requires forall c :: c in mem && c != a && c != b ==> c in mem' && mem'[c] == mem[c]
    ensures Sized(mem', live)
  {
  }

  lemma SizedAdd(mem: map<nat, Header>, live: map<nat, nat>, a: nat)
    requires Sized(mem, live) && a in mem
    ensures Sized(mem, live[a := mem[a].size])
  {
  }

  /** What malloc does to the ring and the tiling, for both ways of taking `n` units from block
      `i`; `h` is whatever the new header's link field held. */
  lemma TakeOk(mem: map<nat, Header>, base: nat, bs: seq<Block>, live: map<nat, nat>,
               units: seq<Block>, i: nat, n: nat, h: Header)
    requires RingOk(mem, base, bs) && Tiled(bs, live, units)
    requires 1 <= i < |bs| && 1 <= n <= bs[i].size && !Covered(units, base)
    ensures bs[i].addr in mem && bs[i - 1].addr in mem
    ensures mem[bs[i].addr] == Header(NextAddr(bs, i), bs[i].size) && mem[bs[i - 1].addr].size == bs[i - 1].size
    ensures bs[i].size == n ==>
              && RingOk(mem[bs[i - 1].addr := Header(NextAddr(bs, i), bs[i - 1].size)], base, bs[..i] + bs[i + 1..])
              && Tiled(bs[..i] + bs[i + 1..], live[bs[i].addr := n], units) && bs[i].addr !in live
    ensures bs[i].size > n ==>
              var r := bs[i := Block(bs[i].addr, bs[i].size - n)];
              var q := bs[i].End() - n;
              && Tiled(r, live[q := n], units) && q !in live
              && (forall j :: 0 <= j < |bs| ==> bs[j].addr != q)
              && RingOk(mem[bs[i].addr := Header(NextAddr(bs, i), bs[i].size - n)][q := h], base, r)
  {
    hide RingOk, Tiled, Covered;
    RingAt(mem, base, bs, i);
    RingAt(mem, base, bs, i - 1);
    BlockCovered(bs, i);
    if bs[i].size == n {
      TakeWhole(mem, base, bs, i);
      LiveAdded(bs, bs[..i] + bs[i + 1..], live, units, bs[i]);
    } else {
      var b := Block(bs[i].End() - n, n);
      TakeTail(mem, base, bs, i, n);
      assert forall x :: b.Has(x) ==> bs[i].Has(x);
      LiveAdded(bs, bs[i := Block(bs[i].addr, bs[i].size - n)], live, units, b);
      InsideIsNoAddr(mem, base, bs, i, b.addr);
      RingFrame(mem[bs[i].addr := Header(NextAddr(bs, i), bs[i].size - n)], base,
                bs[i := Block(bs[i].addr, bs[i].size - n)], b.addr, h);
    }
  }

  /** Writing a header that is not on the ring leaves the ring alone. */
  lemma RingFrame(mem: map<nat, Header>, base: nat, bs: seq<Block>, a: nat, h: Header)
    requires RingOk(mem, base, bs) && forall i :: 0 <= i < |bs| ==> bs[i].addr != a
    ensures RingOk(mem[a := h], base, bs)
  {
    var m := mem[a := h];
    forall i | 0 <= i < |bs| ensures LinkedAt(m, bs, i) {
      assert LinkedAt(mem, bs, i);
    }
  }

  /** A block that overlaps no free block has its place on the ring. */
  lemma SlotOf(mem: map<nat, Header>, base: nat, bs: seq<Block>, b: Block) returns (k: nat)
    requires RingOk(mem, base, bs) && base < b.addr && b.size >= 1
    requires forall x :: b.Has(x) ==> !Covered(bs, x)
    ensures IsSlot(bs, b.addr, k) && bs[k].End() <= b.addr
    ensures k + 1 < |bs| ==> b.End() <= bs[k + 1].addr
  {
    forall i | 0 <= i < |bs| ensures !b.Has(bs[i].addr) && !bs[i].Has(b.addr) {
      if i > 0 {
        assert bs[i].Has(bs[i].addr);
        assert Covered(bs, bs[i].addr);
      }
      if bs[i].Has(b.addr) {
        assert Covered(bs, b.addr) && b.Has(b.addr);
      }
    }
    k := FindSlot(bs, b.addr, |bs|);
  }

  /** The two stopping tests of free()'s search hold together exactly at the right place. */
  lemma SearchStep(bs: seq<Block>, a: nat, k: nat, i: nat)
    requires Sorted(bs) && IsSlot(bs, a, k) && i < |bs| && bs[0].addr < a
    ensures var p, nxt := bs[i].addr, NextAddr(bs, i);
            (a > p && a < nxt) || (p >= nxt && (a > p || a < nxt)) <==> i == k
  {
    if i < k { assert bs[i].End() < bs[i + 1].addr; assert i + 1 < k ==> bs[i + 1].End() < bs[k].addr; }
    if i > k && i + 1 < |bs| { assert bs[i].End() < bs[i + 1].addr; }
    if 0 < i { assert bs[0].End() < bs[i].addr; }
  }

  function Succ(bs: seq<Block>, i: nat): nat
    requires i < |bs|
  {
    if i + 1 < |bs| then i + 1 else 0
  }

  /** Steps along a ring of `n` from position `t` to position `f`. */
  function Dist(n: nat, t: nat, f: nat): nat
    requires t < n && f < n
  {
    if t <= f then f - t else n - t + f
  }

  /** The blocks between `f` and `i`, both excluded, are too small. */
  ghost predicate Visited(bs: seq<Block>, f: nat, i: nat, n: nat) {
    && f < |bs| && i < |bs|
    && forall t :: 0 <= t < |bs| && Dist(|bs|, t, f) > Dist(|bs|, i, f) ==> bs[t].size < n
  }

  lemma VisitedStart(bs: seq<Block>, f: nat, n: nat)
    requires f < |bs|
    ensures Visited(bs, f, Succ(bs, f), n)
  {
  }

  lemma VisitedStep(bs: seq<Block>, f: nat, i: nat, n: nat)
    requires Visited(bs, f, i, n) && i != f && bs[i].size < n
    ensures Visited(bs, f, Succ(bs, i), n) && Dist(|bs|, Succ(bs, i), f) < Dist(|bs|, i, f)
  {
  }

  lemma VisitedAll(bs: seq<Block>, f: nat, n: nat)
    requires Visited(bs, f, f, n) && bs[f].size < n
    ensures forall t :: 0 <= t < |bs| ==> bs[t].size < n
  {
    forall t | 0 <= t < |bs| ensures bs[t].size < n {
      assert t != f ==> Dist(|bs|, t, f) > Dist(|bs|, f, f);
    }
  }

  lemma UnitsPositive(nbytes: nat)
    ensures Units(nbytes) >= 1
  {
  }

  lemma RingAt(mem: map<nat, Header>, base: nat, bs: seq<Block>, i: nat)
    requires RingOk(mem, base, bs) && i < |bs|
    ensures bs[i].addr in mem && mem[bs[i].addr] == Header(bs[Succ(bs, i)].addr, bs[i].size)
    ensures NextAddr(bs, i) == bs[Succ(bs, i)].addr
    ensures (i == 0 <==> bs[i].size == 0) && bs[i].addr >= base
  {
    assert LinkedAt(mem, bs, i);
  }

  lemma RingDistinct(mem: map<nat, Header>, base: nat, bs: seq<Block>, i: nat, j: nat)
    requires RingOk(mem, base, bs) && i < |bs| && j < |bs| && bs[i].addr == bs[j].addr
    ensures i == j
  {
  }

  /** How many units morecore asks for. */
  function Asked(nu: nat): nat { if nu < MIN_CORE then MIN_CORE else nu }

  /** sbrk refuses what morecore asks for `nu` units: pages are wanted and cannot be had, or exactly all the
      process has is to be given back. */
  predicate NoCore(brk: nat, nu: nat, room: bool) {
    if Asked(nu) * HEADER < INT then !(room && (brk + Asked(nu)) * HEADER < KERNBASE)
    else brk * HEADER + Request(Asked(nu)) == 0
  }

  lemma SbrkFails(brk: nat, n: nat, room: bool)
    requires 0 < brk && brk * HEADER < KERNBASE && MIN_CORE <= n <= UINT / HEADER
    ensures -INT <= Request(n) < INT
    ensures !Grow(brk * HEADER, Request(n), room).ok <==> NoCore(brk, n, room)
  {
  }

  /** No free block has `n` units. */
  ghost predicate NoFit(bs: seq<Block>, n: nat) { forall t :: 0 <= t < |bs| ==> bs[t].size < n }

  datatype Core = Failed | Grew | Phantom

  /** malloc's result.  Unbacked: it goes on with a block that the process has no memory for. */
  datatype Allocated = Null | At(ap: nat) | Unbacked

  lemma WholeUnits(brk: nat, n: int, room: bool)
    requires brk * HEADER < KERNBASE && -INT <= n < INT && n % HEADER == 0
    ensures var g := Grow(brk * HEADER, n, room); g.sz % HEADER == 0 && g.mapped % HEADER == 0
    ensures n > 0 ==> (brk * HEADER + n) % UINT == (brk + n / HEADER) * HEADER
  {
  }

  lemma RequestIs(n: nat)
    requires MIN_CORE <= n <= UINT / HEADER
    ensures -INT <= Request(n) < INT && Request(n) % HEADER == 0
    ensures n * HEADER < INT ==> Request(n) == n * HEADER
    ensures n * HEADER >= INT ==> Request(n) <= 0
  {
  }

  lemma WhichFamily(nbytes: nat)
    requires nbytes < UINT
    ensures Units(nbytes) <= UINT / HEADER
    ensures nbytes <= LIMIT ==> Roomy(nbytes) && Asked(Units(nbytes)) * HEADER < INT
    ensures nbytes > LIMIT ==>
              if Units(nbytes) == 1 then !Roomy(nbytes) && Asked(Units(nbytes)) * HEADER < INT
              else Units(nbytes) * HEADER >= KERNBASE && Asked(Units(nbytes)) * HEADER >= INT
  {
    LimitIff(nbytes);
    if nbytes > LIMIT {
      AboveLimit(nbytes);
    }
  }

  /** No free block is larger than the memory below the kernel. */
  lemma BlockIsSmall(mem: map<nat, Header>, base: nat, bs: seq<Block>, live: map<nat, nat>, units: seq<Block>,
                     brk: nat, i: nat)
    requires RingOk(mem, base, bs) && Tiled(bs, live, units) && i < |bs| && brk * HEADER < KERNBASE
    requires 0 < base < brk && forall x: nat :: Covered(units, x) ==> base < x < brk
    ensures bs[i].size * HEADER < KERNBASE
  {
    if bs[i].size > 0 {
      BlockCovered(bs, i);
      var x := bs[i].End() - 1;
      assert bs[i].Has(x);
      assert Covered(bs, x);
      assert Covered(units, x);
    }
  }

  class Allocator {
    const base: nat
    var mem: map<nat, Header>
    var freep: nat               // 0 before the first malloc
    var brk: nat                 // the break, proc->sz
    var mapped: nat              // how far the process's memory really reaches

    ghost var blocks: seq<Block>
    ghost var live: map<nat, nat>     // headers of allocated blocks and their sizes
    ghost var units: seq<Block>       // the regions sbrk has returned

    ghost predicate RingValid()
      reads this
    {
      && 0 < base < brk
      && RingOk(mem, base, blocks)
      && (exists i :: 0 <= i < |blocks| && blocks[i].addr == freep)
    }

    ghost predicate Valid()
      reads this
    {
      && 0 < base < brk == mapped && brk * HEADER < KERNBASE
      && (freep == 0 ==> blocks == [] && live == map[] && units == [])
      && (freep != 0 ==> RingValid())
      && Tiled(blocks, live, units)
      && (forall x: nat :: Covered(units, x) ==> base < x < brk)
      && Sized(mem, live)
    }

    constructor (base: nat, brk: nat)
      requires 0 < base < brk && brk * HEADER < KERNBASE
      ensures Valid() && this.base == base && this.brk == brk && live == map[] && units == []
    {
      this.base, this.brk, mapped, mem, freep := base, brk, brk, map[], 0;
      blocks, live, units := [], map[], [];
    }

    /** free()'s search: the ring element after which `bp` belongs. */
    method FindPlace(bp: nat) returns (p: nat, ghost k: nat)
      requires RingValid() && base < bp && bp in mem && mem[bp].size >= 1
      requires forall x :: Block(bp, mem[bp].size).Has(x) ==> !Covered(blocks, x)
      ensures IsSlot(blocks, bp, k) && p == blocks[k].addr && p in mem && p < bp
      ensures blocks[k].End() <= bp && (k + 1 < |blocks| ==> bp + mem[bp].size <= blocks[k + 1].addr)
      ensures mem[p] == Header(NextAddr(blocks, k), blocks[k].size)
    {
      k := SlotOf(mem, base, blocks, Block(bp, mem[bp].size));
      ghost var i :| 0 <= i < |blocks| && blocks[i].addr == freep;
      assert LinkedAt(mem, blocks, i);
      p := freep;
      while !(bp > p && bp < mem[p].ptr)
        invariant i < |blocks| && p == blocks[i].addr && LinkedAt(mem, blocks, i)
        decreases if i <= k then k - i else |blocks| - i + k
      {
        SearchStep(blocks, bp, k, i);
        if p >= mem[p].ptr && (bp > p || bp < mem[p].ptr) {
          break;
        }
        p := mem[p].ptr;
        i := if i + 1 < |blocks| then i + 1 else 0;
        assert LinkedAt(mem, blocks, i);
      }
      SearchStep(blocks, bp, k, i);
    }

    /** The body of free(), for a block `bp` whose header is in place and which is not on the
        ring: afterwards the ring holds exactly its units in addition, and no header outside the
        ring has changed. */
    method FreeBlock(bp: nat)
      requires RingValid() && base < bp && bp in mem && mem[bp].size >= 1
      requires forall x :: Block(bp, mem[bp].size).Has(x) ==> !Covered(blocks, x)
      modifies this`mem, this`freep, this`blocks
      ensures RingValid()
      ensures forall x :: Covered(blocks, x) <==> Covered(old(blocks), x) || Block(bp, old(mem)[bp].size).Has(x)
      ensures forall a :: a in old(mem) ==> a in mem
      ensures forall a :: a in old(mem) && a != bp && a != freep ==> mem[a] == old(mem)[a]
      ensures exists k :: 0 <= k < |old(blocks)| && old(blocks)[k].addr == freep
    {
      hide RingOk, Covered, IsSlot, Inserted;
      ghost var b := Block(bp, mem[bp].size);
      var p; ghost var k;
      p, k := FindPlace(bp);
      FreeRing(mem, base, blocks, k, b);
      var nxt := mem[p].ptr;
      if bp + mem[bp].size == nxt {
        mem := mem[bp := Header(mem[nxt].ptr, mem[bp].size + mem[nxt].size)];
      } else {
        mem := mem[bp := Header(nxt, mem[bp].size)];
      }
      if p + mem[p].size == bp {
        mem := mem[p := Header(mem[bp].ptr, mem[p].size + mem[bp].size)];
      } else {
        mem := mem[p := Header(bp, mem[p].size)];
      }
      freep := p;
      assert mem == FreedMem(old(mem), blocks, k, b);
      hide FreedMem;
      blocks := Inserted(blocks, k, b);
    }

    /** free(ap) for a pointer that malloc returned and that has not been freed since. */
    method Free(ap: nat)
      requires Valid() && ap >= 1 && ap - 1 in live
      modifies this
      ensures Valid() && live == old(live) - {ap - 1} && units == old(units) && brk == old(brk)
      ensures freep != 0
    {
      hide RingOk, Covered, IsLive, Tiled;
      var bp := ap - 1;
      LiveIsApart(blocks, live, units, bp);
      RingIsApart(mem, base, blocks, live, units);
      FreeBlock(bp);
      LiveRemoved(old(blocks), blocks, live, units, bp);
      live := live - {bp};
    }

    /** sbrk; `room` says whether pages can be had.  The result is the old break. */
    method Sbrk(n: int, room: bool) returns (r: Option<nat>)
      requires 0 < brk == mapped && brk * HEADER < KERNBASE && -INT <= n < INT && n % HEADER == 0
      modifies this`brk, this`mapped
      ensures Outcome(r.Some?, brk * HEADER, mapped * HEADER) == Grow(old(brk) * HEADER, n, room)
      ensures r.Some? ==> r.value == old(brk)
      ensures n > 0 && r.Some? ==> brk == mapped == old(brk) + n / HEADER
      ensures n > 0 && r.None? ==> brk == mapped == old(brk)
    {
      var g := Grow(brk * HEADER, n, room);
      WholeUnits(brk, n, room);
      r := if g.ok then Some(brk) else None;
      brk, mapped := g.sz / HEADER, g.mapped / HEADER;
    }

    /** morecore.  Phantom: sbrk returned a break with no memory behind it, where the new block's header
        would be written. */
    method Morecore(nu: nat, room: bool) returns (r: Core)
      requires Valid() && freep != 0 && 1 <= nu <= UINT / HEADER
      modifies this
      ensures freep != 0 && live == old(live)
      ensures r != Grew ==> blocks == old(blocks) && units == old(units) && mem == old(mem) && freep == old(freep)
      ensures r == Grew ==>
                && Valid() && units == old(units) + [Block(old(brk), Asked(nu))] && brk == old(brk) + Asked(nu)
                && exists i :: 0 <= i < |blocks| && blocks[i].size >= nu
      ensures Asked(nu) * HEADER < INT ==>
                && Valid() && r != Phantom
                && (r == Grew <==> room && (old(brk) + Asked(nu)) * HEADER < KERNBASE)
      ensures Asked(nu) * HEADER >= INT ==> r == Phantom || (r == Failed && mapped == 0)
      ensures r == Failed <==> NoCore(old(brk), nu, room)
    {
      hide RingOk, Covered, IsLive, Tiled, Sized;
      var n := if nu < MIN_CORE then MIN_CORE else nu;
      RequestIs(n);
      SbrkFails(brk, n, room);
      var at := Sbrk(Request(n), room);
      if at.None? {
        return Failed;
      }
      if Request(n) <= 0 {
        return Phantom;
      }
      var hp := at.value;
      ghost var h := Header(if hp in mem then mem[hp].ptr else 0, n);
      CoreIsApart(mem, base, blocks, live, units, old(brk), hp, h);
      SizedStore(mem, live, hp, h);
      mem := mem[hp := Header(if hp in mem then mem[hp].ptr else 0, n)];
      ghost var mem1 := mem;
      FreeBlock(hp);
      SizedFrame(mem1, mem, live, hp, freep);
      CoreAdded(old(blocks), blocks, live, units, hp, n);
      RunIsOneBlock(mem, base, blocks, hp, n);
      units := units + [Block(hp, n)];
      return Grew;
    }

    /** malloc's success branch: unlink block `i`, or split its tail off, behind `prevp`. */
    method Take(prevp: nat, p: nat, nunits: nat, ghost i: nat) returns (ap: nat)
      requires Valid() && freep != 0 && nunits >= 1 && 1 <= i < |blocks|
      requires p == blocks[i].addr && prevp == blocks[i - 1].addr && blocks[i].size >= nunits
      modifies this
      ensures Valid() && freep == prevp && freep != 0 && units == old(units) && brk == old(brk)
      ensures ap >= 1 && ap - 1 !in old(live) && live == old(live)[ap - 1 := nunits]
    {
      hide RingOk, Covered, IsLive, Tiled, Sized;
      RingIsApart(mem, base, blocks, live, units);
      ghost var tail := blocks[i].End() - nunits;
      TakeOk(mem, base, blocks, live, units, i, nunits,
             Header(if tail in mem then mem[tail].ptr else 0, nunits));
      var q := p;
      if mem[p].size == nunits {
        SizedStore(mem, live, prevp, Header(mem[p].ptr, mem[prevp].size));
        mem := mem[prevp := Header(mem[p].ptr, mem[prevp].size)];
        SizedAdd(mem, live, p);
        live := live[p := nunits];
        blocks := blocks[..i] + blocks[i + 1..];
        assert blocks[i - 1].addr == prevp;
      } else {
        SizedStore(mem, live, p, Header(mem[p].ptr, mem[p].size - nunits));
        mem := mem[p := Header(mem[p].ptr, mem[p].size - nunits)];
        q := p + mem[p].size;
        SizedStore(mem, live, q, Header(if q in mem then mem[q].ptr else 0, nunits));
        mem := mem[q := Header(if q in mem then mem[q].ptr else 0, nunits)];
        SizedAdd(mem, live, q);
        live := live[q := nunits];
        blocks := blocks[i := Block(p, blocks[i].size - nunits)];
        assert blocks[i - 1].addr == prevp;
      }
      freep := prevp;
      ap := q + 1;
    }

    /** malloc(nbytes); `room` says whether pages can be had if sbrk is asked.  It answers null exactly when no
        free block has enough units and sbrk refuses more.  The caller gets null or a block of memory the
        process has that holds nbytes, with the heap intact, exactly for requests of at most LIMIT, and for
        those above it whose rounding wraps to a unit that cannot be had. */
    method Malloc(nbytes: nat, room: bool) returns (r: Allocated)
      requires Valid() && nbytes < UINT
      modifies this
      ensures freep != 0
      ensures r.Null? <==> NoFit(old(blocks), Units(nbytes)) && NoCore(old(brk), Units(nbytes), room)
      ensures Valid() && (r.Null? || (r.At? && Roomy(nbytes))) <==>
              || nbytes <= LIMIT
              || (Units(nbytes) == 1 && NoFit(old(blocks), 1) && NoCore(old(brk), 1, room))
      ensures r.At? ==> Valid() && r.ap >= 1 && r.ap - 1 !in old(live) && live == old(live)[r.ap - 1 := Units(nbytes)]
      ensures !r.At? ==> live == old(live) && units == old(units)
      ensures r.At? ==> (units == old(units) && brk == old(brk)) ||
                        (units == old(units) + [Block(old(brk), Asked(Units(nbytes)))] &&
                         brk == old(brk) + Asked(Units(nbytes)))
    {
      hide RingOk, Covered, IsLive, Tiled, Units, Dist, Visited, Roomy, Asked, Grow, NoCore;
      var nunits := Units(nbytes);
      UnitsPositive(nbytes);
      WhichFamily(nbytes);
      if freep == 0 {
        Start();
      }
      var prevp, p; ghost var i;
      prevp, p, i := FindFit(nunits);
      if p == 0 {
        var core := Morecore(nunits, room);
        if core == Failed {
          return Null;
        }
        if core == Phantom {
          return Unbacked;
        }
        prevp, p, i := FindFit(nunits);
      }
      BlockIsSmall(mem, base, blocks, live, units, brk, i);
      var ap := Take(prevp, p, nunits, i);
      return At(ap);
    }

    /** malloc's search, once round the ring from freep: the first block with enough units and the one
        before it; p is 0 exactly when there is none. */
    method FindFit(nunits: nat) returns (prevp: nat, p: nat, ghost i: nat)
      requires Valid() && freep != 0 && nunits >= 1
      ensures p == 0 <==> forall t :: 0 <= t < |blocks| ==> blocks[t].size < nunits
      ensures p != 0 ==>
                1 <= i < |blocks| && p == blocks[i].addr && prevp == blocks[i - 1].addr && blocks[i].size >= nunits
    {
      hide RingOk, Covered, IsLive, Tiled, Dist, Visited;
      prevp := freep;
      ghost var f: nat :| f < |blocks| && blocks[f].addr == freep;
      i := Succ(blocks, f);
      RingAt(mem, base, blocks, f);
      VisitedStart(blocks, f, nunits);
      p := mem[prevp].ptr;
      while true
        invariant i < |blocks| && p == blocks[i].addr && Visited(blocks, f, i, nunits)
        invariant exists j :: 0 <= j < |blocks| && Succ(blocks, j) == i && prevp == blocks[j].addr
        decreases Dist(|blocks|, i, f)
      {
        RingAt(mem, base, blocks, i);
        if mem[p].size >= nunits {
          return;
        }
        if p == freep {
          RingDistinct(mem, base, blocks, i, f);
          VisitedAll(blocks, f, nunits);
          return 0, 0, i;
        }
        VisitedStep(blocks, f, i, nunits);
        prevp := p;
        p := mem[p].ptr;
        i := Succ(blocks, i);
      }
    }

    /** The first call: an empty ring holding only `base`. */
    method Start()
      requires Valid() && freep == 0
      modifies this
      ensures Valid() && freep == base && blocks == [Block(base, 0)]
      ensures live == old(live) && units == old(units) && brk == old(brk)
    {
      mem := mem[base := Header(base, 0)];
      freep := base;
      blocks := [Block(base, 0)];
      assert LinkedAt(mem, blocks, 0);
      assert forall x :: !Covered(blocks, x) && !Covered(units, x);
    }
  }
}
