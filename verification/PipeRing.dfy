/**
 * The pipe's ring buffer over two 32-bit counters that wrap around, and the copying loops of pipewrite
 * and piperead.
 */
module PipeRing {
  import opened Common

  const PIPESIZE: nat := 512

  datatype Ring = Ring(data: seq<nat>, nread: nat, nwrite: nat)

  predicate IsEmpty(r: Ring) { r.nread == r.nwrite }
  predicate IsFull(r: Ring) { r.nwrite == (r.nread + PIPESIZE) % UINT }

  /** The ring holds the bytes sent and not yet received: `sent` and `received` are everything that ever
      went in and came out, of any length. */
  ghost predicate Carries(r: Ring, sent: seq<nat>, received: seq<nat>) {
    && |r.data| == PIPESIZE
    && received <= sent && |sent| - |received| <= PIPESIZE
    && r.nread == |received| % UINT && r.nwrite == |sent| % UINT
    && forall j :: |received| <= j < |sent| ==> r.data[j % PIPESIZE] == sent[j]
  }

  /** Wrapped counters fall on the same slots as unbounded ones, because 512 divides the word size. */
  lemma SlotOf(n: nat)
    ensures n % UINT % PIPESIZE == n % PIPESIZE
  {
    var q := n / UINT;
    assert n == q * UINT + n % UINT;
    assert UINT == PIPESIZE * 8388608;
    assert n == PIPESIZE * (8388608 * q) + n % UINT;
    AddMultiple(8388608 * q, n % UINT);
  }

  lemma AddMultiple(k: nat, m: nat)
    ensures (PIPESIZE * k + m) % PIPESIZE == m % PIPESIZE
  {
    if k > 0 {
      AddMultiple(k - 1, m);
      assert PIPESIZE * k + m == (PIPESIZE * (k - 1) + m) + PIPESIZE;
    }
  }

  /** The tests on wrapped counters say what they mean. */
  lemma TestsAreExact(r: Ring, sent: seq<nat>, received: seq<nat>)
    requires Carries(r, sent, received)
    ensures IsEmpty(r) <==> |sent| == |received|
    ensures IsFull(r) <==> |sent| - |received| == PIPESIZE
    ensures !(IsEmpty(r) && IsFull(r))
  {
    var n, m := |received|, |sent|;
    var d := m - n;
    assert m == n + d;
    assert (n % UINT + PIPESIZE) % UINT == (n + PIPESIZE) % UINT;
    Wraps(n, d);
    Wraps(n, PIPESIZE);
  }

  /** The counters of two totals at most a ring apart. */
  lemma Wraps(n: nat, d: nat)
    requires d <= PIPESIZE
    ensures (n + d) % UINT == if n % UINT + d < UINT then n % UINT + d else n % UINT + d - UINT
  {
  }

  /** Two totals less than a ring apart use different slots. */
  lemma OtherSlot(j: nat, n: nat)
    requires j < n < j + PIPESIZE
    ensures j % PIPESIZE != n % PIPESIZE
  {
  }

  function Push(r: Ring, x: nat): Ring
    requires |r.data| == PIPESIZE
  {
    Ring(r.data[r.nwrite % PIPESIZE := x], r.nread, (r.nwrite + 1) % UINT)
  }

  lemma PushCarries(r: Ring, sent: seq<nat>, received: seq<nat>, x: nat)
    requires Carries(r, sent, received) && !IsFull(r)
    ensures Carries(Push(r, x), sent + [x], received)
  {
    TestsAreExact(r, sent, received);
    var m := |sent|;
    SlotOf(m);
    Wraps(m, 1);
    Wraps(m % UINT, 1);
    var r' := Push(r, x);
    forall j | |received| <= j < m + 1 ensures r'.data[j % PIPESIZE] == (sent + [x])[j] {
      if j < m {
        OtherSlot(j, m);
      }
    }
  }

  lemma PopCarries(r: Ring, sent: seq<nat>, received: seq<nat>)
    requires Carries(r, sent, received) && !IsEmpty(r)
    ensures r.data[r.nread % PIPESIZE] == sent[|received|]
    ensures Carries(r.(nread := (r.nread + 1) % UINT), sent, received + [sent[|received|]])
  {
    TestsAreExact(r, sent, received);
    SlotOf(|received|);
    Wraps(|received|, 1);
    Wraps(|received| % UINT, 1);
  }

  /** pipewrite's loop between two sleeps: push until done or full; what is left is returned. */
  function Fill(r: Ring, bs: seq<nat>): (Ring, seq<nat>)
    requires |r.data| == PIPESIZE
    decreases |bs|
  {
    if bs == [] || IsFull(r) then (r, bs) else Fill(Push(r, bs[0]), bs[1..])
  }

  /** piperead's loop: pop until `n` or empty. */
  function Drain(r: Ring, n: nat): (Ring, seq<nat>)
    requires |r.data| == PIPESIZE
    decreases n
  {
    if n == 0 || IsEmpty(r) then (r, [])
    else
      var (r', out) := Drain(r.(nread := (r.nread + 1) % UINT), n - 1);
      (r', [r.data[r.nread % PIPESIZE]] + out)
  }

  function Prefixed(out: seq<nat>, d: (Ring, seq<nat>)): (Ring, seq<nat>) { (d.0, out + d.1) }

  lemma NothingPrefixed(d: (Ring, seq<nat>))
    ensures Prefixed([], d) == d
  {
    assert [] + d.1 == d.1;
  }

  lemma DrainOne(r: Ring, n: nat, out: seq<nat>)
    requires |r.data| == PIPESIZE && n > 0 && !IsEmpty(r)
    ensures Prefixed(out, Drain(r, n)) ==
            Prefixed(out + [r.data[r.nread % PIPESIZE]], Drain(r.(nread := (r.nread + 1) % UINT), n - 1))
  {
    var d, x := Drain(r.(nread := (r.nread + 1) % UINT), n - 1), r.data[r.nread % PIPESIZE];
    assert out + ([x] + d.1) == (out + [x]) + d.1;
  }

  lemma DrainNone(r: Ring, n: nat, out: seq<nat>)
    requires |r.data| == PIPESIZE && (n == 0 || IsEmpty(r))
    ensures Prefixed(out, Drain(r, n)) == (r, out)
  {
    assert out + [] == out;
  }

  lemma RingSize(r: Ring, sent: seq<nat>, received: seq<nat>)
    requires Carries(r, sent, received)
    ensures |r.data| == PIPESIZE && received <= sent
  {
  }

  /** Filling takes exactly what fits, in order. */
  lemma {:induction false} FillCarries(r: Ring, sent: seq<nat>, received: seq<nat>, bs: seq<nat>)
    requires Carries(r, sent, received)
    ensures var (r', rest) := Fill(r, bs);
            var k := Min(|bs|, PIPESIZE - (|sent| - |received|));
            && rest == bs[k..] && Carries(r', sent + bs[..k], received)
            && (rest != [] ==> IsFull(r'))
    decreases |bs|
  {
    TestsAreExact(r, sent, received);
    if bs == [] || IsFull(r) {
      assert sent + bs[..0] == sent;
    } else {
      PushCarries(r, sent, received, bs[0]);
      FillCarries(Push(r, bs[0]), sent + [bs[0]], received, bs[1..]);
      var k := Min(|bs|, PIPESIZE - (|sent| - |received|));
      assert bs[1..][k - 1..] == bs[k..];
      assert sent + [bs[0]] + bs[1..][..k - 1] == sent + bs[..k];
    }
  }

  /** Draining gives exactly the next bytes that were sent. */
  lemma {:induction false} DrainCarries(r: Ring, sent: seq<nat>, received: seq<nat>, n: nat)
    requires Carries(r, sent, received)
    ensures var (r', out) := Drain(r, n);
            |out| == Min(n, |sent| - |received|) && Carries(r', sent, received + out)
    decreases n
  {
    TestsAreExact(r, sent, received);
    if n == 0 || IsEmpty(r) {
      assert received + [] == received;
    } else {
      PopCarries(r, sent, received);
      var x := sent[|received|];
      var r1 := r.(nread := (r.nread + 1) % UINT);
      DrainCarries(r1, sent, received + [x], n - 1);
      assert received + [x] + Drain(r1, n - 1).1 == received + ([x] + Drain(r1, n - 1).1);
    }
  }

  class Pipe {
    var ring: Ring
    ghost var sent: seq<nat>
    ghost var received: seq<nat>

    ghost predicate Valid()
      reads this
    {
      Carries(ring, sent, received)
    }

    /** pipealloc. */
    constructor (junk: seq<nat>)
      requires |junk| == PIPESIZE
      ensures Valid() && sent == [] && received == []
    {
      ring := Ring(junk, 0, 0);
      sent, received := [], [];
    }

    /** pipewrite's loop from `i` until it is done or the pipe is full: `k` bytes of `addr` are in. */
    method Copyin(addr: seq<nat>, i: nat) returns (k: nat)
      requires Valid() && i <= |addr|
      modifies this`ring, this`sent
      ensures Valid() && k == i + Min(|addr| - i, PIPESIZE - (|old(sent)| - |received|))
      ensures sent == old(sent) + addr[i..k] && ring.nread == old(ring.nread)
      ensures (ring, addr[k..]) == Fill(old(ring), addr[i..])
    {
      k := i;
      TestsAreExact(ring, sent, received);
      while k < |addr| && ring.nwrite != (ring.nread + PIPESIZE) % UINT
        invariant i <= k <= |addr| && Valid() && ring.nread == old(ring.nread)
        invariant sent == old(sent) + addr[i..k]
        invariant Fill(ring, addr[k..]) == Fill(old(ring), addr[i..])
      {
        PushCarries(ring, sent, received, addr[k]);
        assert addr[i..k + 1] == addr[i..k] + [addr[k]] && addr[k..][1..] == addr[k + 1..];
        ring := Ring(ring.data[ring.nwrite % PIPESIZE := addr[k]], ring.nread, (ring.nwrite + 1) % UINT);
        sent := sent + [addr[k]];
        k := k + 1;
      }
      TestsAreExact(ring, sent, received);
    }

    /** piperead's copying loop: the next bytes in the order they were sent. */
    method Copyout(n: nat) returns (out: seq<nat>)
      requires Valid()
      modifies this`ring, this`received
      ensures Valid() && |out| == Min(n, |sent| - |old(received)|)
      ensures received == old(received) + out && received <= sent && ring.nwrite == old(ring.nwrite)
      ensures (ring, out) == Drain(old(ring), n)
    {
      hide Drain, Carries, Prefixed;
      out := [];
      TestsAreExact(ring, sent, received);
      RingSize(ring, sent, received);
      NothingPrefixed(Drain(ring, n));
      while |out| < n && ring.nread != ring.nwrite
        invariant |out| <= n && Valid() && received == old(received) + out && ring.nwrite == old(ring.nwrite)
        invariant |ring.data| == PIPESIZE && Drain(old(ring), n) == Prefixed(out, Drain(ring, n - |out|))
        decreases n - |out|
      {
        PopCarries(ring, sent, received);
        DrainOne(ring, n - |out|, out);
        var x := ring.data[ring.nread % PIPESIZE];
        ring := ring.(nread := (ring.nread + 1) % UINT);
        received := received + [x];
        out := out + [x];
        RingSize(ring, sent, received);
      }
      TestsAreExact(ring, sent, received);
      RingSize(ring, sent, received);
      DrainNone(ring, n - |out|, out);
    }
  }
}
