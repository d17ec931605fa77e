/**
 * bio.c over the synchronous disk: the least-recently-used ring of prev/next links, bget's two scans,
 * bread, bwrite and brelse.  Each operation is a run of the BufCache machine, and the ring stays a
 * circular doubly linked list of all the buffers, most recently released first.
 */
module BufCode {
  import opened Common
  import opened BufCache

  /** Element `i` of the ring: position 0 and position |order| + 1 are the list head. */
  function At(order: seq<nat>, head: nat, i: nat): nat
    requires i <= |order| + 1
  {
    if i == 0 || i == |order| + 1 then head else order[i - 1]
  }

  ghost predicate LinkedAt(next: seq<nat>, prev: seq<nat>, order: seq<nat>, head: nat, i: nat)
    requires i <= |order|
  {
    var x, y := At(order, head, i), At(order, head, i + 1);
    x < |next| && y < |prev| && next[x] == y && prev[y] == x
  }

  ghost predicate Distinct(order: seq<nat>, head: nat) {
    && head !in order
    && forall i, j :: 0 <= i < j < |order| ==> order[i] != order[j]
  }

  /** next and prev link the head and `order`, in that order, both ways round. */
  ghost predicate Ring(next: seq<nat>, prev: seq<nat>, order: seq<nat>, head: nat) {
    && |next| == |prev| && head < |next|
    && (forall i :: 0 <= i < |order| ==> order[i] < |next|)
    && Distinct(order, head)
    && forall i :: 0 <= i <= |order| ==> LinkedAt(next, prev, order, head, i)
  }

  /** Inserting `b` after the head. */
  lemma PushFront(next: seq<nat>, prev: seq<nat>, order: seq<nat>, head: nat, b: nat)
    requires Ring(next, prev, order, head) && b < |next| && b !in order && b != head
    ensures next[head] < |prev|
    ensures Ring(next[b := next[head]][head := b], prev[b := head][next[head] := b], [b] + order, head)
  {
    assert LinkedAt(next, prev, order, head, 0);
    var first := next[head];
    var n', p', order' := next[b := first][head := b], prev[b := head][first := b], [b] + order;
    forall i | 0 <= i <= |order'| ensures LinkedAt(n', p', order', head, i) {
      if i == 0 {
      } else {
        assert LinkedAt(next, prev, order, head, i - 1);
      }
    }
  }

  function Without(order: seq<nat>, j: nat): seq<nat>
    requires j < |order|
  {
    order[..j] + order[j + 1..]
  }

  /** Taking the buffer at position `j` out of the ring. */
  lemma Unlink(next: seq<nat>, prev: seq<nat>, order: seq<nat>, head: nat, j: nat)
    requires Ring(next, prev, order, head) && j < |order|
    ensures next[order[j]] < |prev| && prev[order[j]] < |next|
    ensures Ring(next[prev[order[j]] := next[order[j]]], prev[next[order[j]] := prev[order[j]]],
                 Without(order, j), head)
    ensures order[j] !in Without(order, j)
  {
    var b := order[j];
    assert LinkedAt(next, prev, order, head, j) && LinkedAt(next, prev, order, head, j + 1);
    var n', p', order' := next[prev[b] := next[b]], prev[next[b] := prev[b]], Without(order, j);
    forall i | 0 <= i <= |order'| ensures LinkedAt(n', p', order', head, i) {
      UnlinkedAt(next, prev, order, head, j, i);
    }
  }

  lemma UnlinkedAt(next: seq<nat>, prev: seq<nat>, order: seq<nat>, head: nat, j: nat, i: nat)
    requires Ring(next, prev, order, head) && j < |order| && i < |order|
    requires next[order[j]] < |prev| && prev[order[j]] < |next|
    ensures LinkedAt(next[prev[order[j]] := next[order[j]]], prev[next[order[j]] := prev[order[j]]],
                     Without(order, j), head, i)
  {
    var order' := Without(order, j);
    assert LinkedAt(next, prev, order, head, j) && LinkedAt(next, prev, order, head, j + 1);
    assert LinkedAt(next, prev, order, head, i);
    assert LinkedAt(next, prev, order, head, i + 1);
    assert At(order', head, i) == At(order, head, if i <= j then i else i + 1);
    assert At(order', head, i + 1) == At(order, head, if i < j then i + 1 else i + 2);
  }

  /** `order` lists each buffer number below n once. */
  ghost predicate Permutation(order: seq<nat>, n: nat) {
    && |order| == n
    && (forall b: nat :: b < n ==> b in order)
    && (forall i :: 0 <= i < |order| ==> order[i] < n)
  }

  lemma StillPermutation(order: seq<nat>, n: nat, j: nat)
    requires Permutation(order, n) && j < |order|
    ensures Permutation([order[j]] + Without(order, j), n)
  {
    var order' := [order[j]] + Without(order, j);
    forall b: nat | b < n ensures b in order' {
      assert b in order;
      var i :| 0 <= i < |order| && order[i] == b;
      if i < j {
        assert order'[i + 1] == b;
      } else if i > j {
        assert order'[i] == b;
      }
    }
  }

  /** n - 1, ..., 1, 0. */
  function Down(n: nat): seq<nat> { if n == 0 then [] else [n - 1] + Down(n - 1) }

  lemma DownIsPermutation(n: nat)
    ensures Permutation(Down(n), n)
  {
    if n > 0 {
      DownIsPermutation(n - 1);
      forall b: nat | b < n ensures b in Down(n) {
        assert b == n - 1 || b in Down(n - 1);
      }
    }
  }

  /** Every buffer behind `b` in the ring is one bget may not recycle. */
  ghost predicate IsVictim<D>(bufs: seq<Buf<D>>, order: seq<nat>, b: nat) {
    exists j :: 0 <= j < |order| && order[j] == b &&
      forall i :: j < i < |order| ==> order[i] < |bufs| && Taken(bufs[order[i]])
  }

  datatype Got = Buffer(b: nat) | MustSleep(b: nat) | NoBuffers

  class Bcache<D(==)> {
    const n: nat               // NBUF
    var bufs: seq<Buf<D>>
    var next: seq<nat>         // links; entry n is bcache.head
    var prev: seq<nat>
    var disk: map<Key, D>
    ghost var order: seq<nat>  // the ring, most recently released first
    ghost var use: map<nat, Use>
    ghost var pinned: set<Key>

    ghost function St(): State<D>
      reads this
    {
      State(bufs, disk, use, pinned)
    }

    ghost predicate Valid()
      reads this
    {
      |bufs| == n && |next| == n + 1 && Ring(next, prev, order, n) && Permutation(order, n) && Inv(St())
    }

    /** binit. */
    constructor (nbuf: nat, image: map<Key, D>, junk: D)
      ensures Valid() && n == nbuf && disk == image && Boot(St())
      ensures order == Down(nbuf)
    {
      n := nbuf;
      disk := image;
      bufs := seq(nbuf, _ => Buf(None, false, false, false, junk));
      use, pinned := map[], {};
      next, prev := seq(nbuf + 1, _ => nbuf), seq(nbuf + 1, _ => nbuf);
      order := [];
      new;
      hide Inv;
      assert LinkedAt(next, prev, order, n, 0);
      var b := 0;
      while b < n
        invariant b <= n && |bufs| == n && |next| == n + 1 && Ring(next, prev, order, n) && disk == image
        invariant order == Down(b)
        invariant Boot(St())
      {
        DownIsPermutation(b);
        PushFront(next, prev, order, n, b);
        ghost var order1 := [b] + order;
        var first := next[n];
        next := next[b := first];
        prev := prev[b := n];
        prev := prev[first := b];
        next := next[n := b];
        order := order1;
        b := b + 1;
      }
      BootInv(St());
      DownIsPermutation(n);
    }

    /** bget's forward scan: the buffer caching `k`, or the head. */
    method FindCached(k: Key) returns (b: nat)
      requires Valid()
      ensures b <= n && (b == n <==> !Cached(bufs, k)) && (b < n ==> bufs[b].key == Some(k))
    {
      hide Inv;
      ghost var at := 1;
      b := next[n];
      assert LinkedAt(next, prev, order, n, 0);
      while b != n
        invariant 1 <= at <= n + 1 && b == At(order, n, at)
        invariant forall i :: 0 <= i < at - 1 ==> bufs[order[i]].key != Some(k)
        decreases n + 1 - at
      {
        if bufs[b].key == Some(k) {
          return;
        }
        assert LinkedAt(next, prev, order, n, at);
        b, at := next[b], at + 1;
      }
      NotCached(bufs, order, n, k);
    }

    /** bget's backward scan: the least recently released idle clean buffer, or the head. */
    method FindVictim() returns (b: nat)
      requires Valid()
      ensures b <= n && (b == n <==> forall c :: 0 <= c < n ==> Taken(bufs[c]))
      ensures b < n ==> !Taken(bufs[b]) && IsVictim(bufs, order, b)
    {
      hide Inv;
      ghost var at := n;
      b := prev[n];
      assert LinkedAt(next, prev, order, n, n);
      while b != n
        invariant 0 <= at <= n && b == At(order, n, at)
        invariant forall i :: at <= i < n ==> Taken(bufs[order[i]])
        decreases at
      {
        if !bufs[b].busy && !bufs[b].dirty {
          assert order[at - 1] == b;
          return;
        }
        assert LinkedAt(next, prev, order, n, at - 1);
        b, at := prev[b], at - 1;
      }
      forall c: nat | c < n ensures Taken(bufs[c]) {
        assert c in order;
      }
    }

    /** bget up to its return, its sleep or its panic.  A cached block is found wherever it is in the
        ring; otherwise the victim is the least recently released idle clean buffer, and the panic
        happens exactly when there is none. */
    method Bget(p: nat, k: Key) returns (r: Got)
      requires Valid() && k in disk
      modifies this`bufs, this`use
      ensures Valid()
      ensures r.MustSleep? ==> St() == old(St()) && Enabled(St(), Wait(p, k, r.b))
      ensures r.MustSleep? <==> Busy(old(bufs), k)
      ensures r.NoBuffers? <==>
                !Cached(old(bufs), k) && forall b :: 0 <= b < n ==> Taken(old(bufs)[b])
      ensures r.NoBuffers? ==> St() == old(St())
      ensures r.Buffer? ==>
                var e: Event<D> := if Cached(old(bufs), k) then Hit(p, k, r.b) else Recycle(p, k, r.b);
                Enabled(old(St()), e) && St() == Next(old(St()), e)
      ensures r.Buffer? && !Cached(old(bufs), k) ==> IsVictim(old(bufs), order, r.b)
    {
      var b := FindCached(k);
      if b != n {
        if !bufs[b].busy {
          ghost var e: Event<D> := Hit(p, k, b);
          StepKeeps(St(), e);
          bufs := bufs[b := bufs[b].(busy := true)];
          use := use[b := Use(p, Entry(bufs[b]))];
          return Buffer(b);
        }
        return MustSleep(b);
      }
      b := FindVictim();
      if b != n {
        ghost var e: Event<D> := Recycle(p, k, b);
        StepKeeps(St(), e);
        bufs := bufs[b := Buf(Some(k), true, false, false, bufs[b].data)];
        use := use[b := Use(p, Loading)];
        return Buffer(b);
      }
      return NoBuffers;
    }

    /** iderw of the in-memory disk: a dirty buffer is stored, an invalid one is filled. */
    method Iderw(b: nat)
      requires b < |bufs| && bufs[b].key.Some? && bufs[b].key.value in disk
      requires bufs[b].busy && (!bufs[b].valid || bufs[b].dirty)     // else panic
      modifies this`bufs, this`disk
      ensures var f, k := old(bufs)[b], old(bufs)[b].key.value;
              && disk == (if f.dirty then old(disk)[k := f.data] else old(disk))
              && bufs == old(bufs)[b := f.(valid := true, dirty := false, data := disk[k])]
    {
      var k := bufs[b].key.value;
      if bufs[b].dirty {
        bufs := bufs[b := bufs[b].(dirty := false)];
        disk := disk[k := bufs[b].data];
      } else {
        bufs := bufs[b := bufs[b].(data := disk[k])];
      }
      bufs := bufs[b := bufs[b].(valid := true)];
    }

    /** bread: the buffer it returns is held by the caller and shows the block's logical content.  It has to wait
        exactly for a block whose buffer is busy. */
    method Bread(p: nat, k: Key) returns (r: Got)
      requires Valid() && k in disk
      modifies this`bufs, this`use, this`disk
      ensures Valid() && disk == old(disk) && pinned == old(pinned)
      ensures r.Buffer? ==>
                && r.b < n && Holds(St(), p, r.b) && use[r.b].phase == Held && r.b !in old(use)
                && bufs[r.b].key == Some(k) && bufs[r.b].valid && bufs[r.b].data == Logical(old(St()), k)
      ensures r.Buffer? ==> forall q :: q in disk ==> Logical(St(), q) == Logical(old(St()), q)
      ensures !r.Buffer? ==> St() == old(St())
      ensures r.MustSleep? <==> Busy(old(bufs), k)
      ensures r.NoBuffers? <==> !Cached(old(bufs), k) && forall b :: 0 <= b < n ==> Taken(old(bufs)[b])
    {
      hide Ring, Permutation, Unique, Logical;
      ghost var s0 := St();
      r := Bget(p, k);
      if r.Buffer? {
        ghost var e: Event<D> := if Cached(s0.bufs, k) then Hit(p, k, r.b) else Recycle(p, k, r.b);
        ghost var s1 := St();
        assert BufOk(s0, r.b) && BufOk(s1, r.b);
        forall q | q in disk ensures Logical(s1, q) == Logical(s0, q) {
          StepIsTransparent(s0, e, q);
        }
        if !bufs[r.b].valid {
          ghost var load: Event<D> := Load(r.b);
          Iderw(r.b);
          use := use[r.b := use[r.b].(phase := Held)];
          StepKeeps(s1, load);
          assert St() == Next(s1, load);
          forall q | q in disk ensures Logical(St(), q) == Logical(s0, q) {
            StepIsTransparent(s1, load, q);
          }
        }
        assert IsCopy(bufs, k, r.b);
        LogicalOfCopy(St(), k, r.b);
      }
    }

    /** bwrite: the held buffer's data goes home, no other block changes, and the logical disk stays. */
    method Bwrite(p: nat, b: nat)
      requires Valid() && Enabled(St(), Event<D>.Bwrite(p, b))      // busy, else panic
      modifies this`bufs, this`use, this`disk, this`pinned
      ensures Valid()
      ensures var mid := Next(old(St()), Event<D>.Bwrite(p, b));
              Enabled(mid, Store(b)) && St() == Next(mid, Store(b))
      ensures disk.Keys == old(disk).Keys && forall q :: q in disk ==> Logical(St(), q) == Logical(old(St()), q)
      ensures old(bufs)[b].key.Some? && disk == old(disk)[old(bufs)[b].key.value := old(bufs)[b].data]
    {
      hide Ring, Permutation, Unique, Logical;
      ghost var s0 := St();
      ghost var e: Event<D> := Event.Bwrite(p, b);
      ghost var store: Event<D> := Store(b);
      ghost var s1 := Next(s0, e);
      assert BufOk(s0, b);
      StepKeeps(s0, e);
      StepKeeps(s1, store);
      forall q | q in disk ensures Logical(Next(s1, store), q) == Logical(s0, q) {
        StepIsTransparent(s0, e, q);
        StepIsTransparent(s1, store, q);
      }
      assert BufOk(s1, b);
      bufs := bufs[b := bufs[b].(dirty := true)];
      pinned := pinned - {bufs[b].key.value};
      Iderw(b);
      use := use[b := Use(p, Held)];
      assert St() == Next(s1, store);
    }

    /** brelse: the buffer moves to the front of the ring; the rest keep their order. */
    method Brelse(p: nat, b: nat)
      requires Valid() && Enabled(St(), Event<D>.Brelse(p, b))      // busy, else panic
      modifies this`bufs, this`use, this`next, this`prev, this`order
      ensures Valid()
      ensures St() == Next(old(St()), Event<D>.Brelse(p, b))
      ensures exists j :: 0 <= j < n && old(order)[j] == b && order == [b] + Without(old(order), j)
    {
      hide Ring, Permutation, Inv;
      ghost var e: Event<D> := Event.Brelse(p, b);
      StepKeeps(St(), e);
      ghost var j := PlaceOf(order, n, b);
      MoveToFront(next, prev, order, n, j);
      prev := prev[next[b] := prev[b]];
      next := next[prev[b] := next[b]];
      next := next[b := next[n]];
      prev := prev[b := n];
      prev := prev[next[n] := b];
      next := next[n := b];
      order := [b] + Without(order, j);
      bufs := bufs[b := bufs[b].(busy := false)];
      use := use - {b};
    }
  }

  /** Block `k` is in a buffer that somebody holds. */
  predicate Busy<D>(bufs: seq<Buf<D>>, k: Key) {
    exists b :: 0 <= b < |bufs| && bufs[b].key == Some(k) && bufs[b].busy
  }

  ghost function PlaceOf(order: seq<nat>, n: nat, b: nat): (j: nat)
    requires Permutation(order, n) && b < n
    ensures j < |order| == n && order[j] == b
  {
    assert b in order;
    var j :| 0 <= j < |order| && order[j] == b;
    j
  }

  /** The six assignments that move a buffer to the front of the ring. */
  lemma MoveToFront(next: seq<nat>, prev: seq<nat>, order: seq<nat>, n: nat, j: nat)
    requires Ring(next, prev, order, n) && Permutation(order, n) && |next| == n + 1 && j < |order|
    ensures var b := order[j];
            && |next| == |prev| && b < n && next[b] < |prev| && prev[b] < |next|
            && var p1 := prev[next[b] := prev[b]];
            p1[b] < |next|
            && var n1 := next[p1[b] := next[b]];
            var n2, p2 := n1[b := n1[n]], p1[b := n];
            && n2[n] < |p2|
            && Ring(n2[n := b], p2[n2[n] := b], [b] + Without(order, j), n)
            && Permutation([b] + Without(order, j), n)
  {
    Unlink(next, prev, order, n, j);
    StillPermutation(order, n, j);
    var b := order[j];
    assert LinkedAt(next, prev, order, n, j) && LinkedAt(next, prev, order, n, j + 1);
    PushFront(next[prev[b] := next[b]], prev[next[b] := prev[b]], Without(order, j), n, b);
  }

  lemma NotCached<D>(bufs: seq<Buf<D>>, order: seq<nat>, n: nat, k: Key)
    requires |bufs| == n && Permutation(order, n)
    requires forall i :: 0 <= i < n ==> order[i] < n && bufs[order[i]].key != Some(k)
    ensures !Cached(bufs, k)
  {
    forall b | 0 <= b < n ensures bufs[b].key != Some(k) {
      assert b in order;
    }
  }
}
