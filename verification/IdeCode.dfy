/**
 * The driver's code: iderw walks the qnext list to its end to append a request, and ideintr takes the
 * first one off.  Each is a step of the Ide machine.
 */
module IdeCode {
  import opened Common
  import opened Ide

  /** Where iderw's walk stands: at idequeue itself or at a buffer's qnext field. */
  datatype Place = Head | Field(b: nat)

  function Link(q: seq<nat>, i: nat): Option<nat> { if i < |q| then Some(q[i]) else None }

  /** The list from `head` through qnext is `q`. */
  ghost predicate Listed(qnext: seq<Option<nat>>, head: Option<nat>, q: seq<nat>) {
    head == Link(q, 0) && forall i :: 0 <= i < |q| ==> q[i] < |qnext| && qnext[q[i]] == Link(q, i + 1)
  }

  class Driver<D> {
    var bufs: seq<Buf<D>>
    var qnext: seq<Option<nat>>
    var idequeue: Option<nat>
    var device: Device<D>
    ghost var disk: seq<D>
    ghost var queue: seq<nat>
    ghost var waiting: map<nat, bool>
    ghost var submitted: seq<nat>
    ghost var completed: seq<nat>

    ghost function St(): State<D>
      reads this
    {
      State(bufs, queue, device, disk, waiting, submitted, completed)
    }

    ghost predicate Valid()
      reads this
    {
      |qnext| == |bufs| && Listed(qnext, idequeue, queue) && Inv(St())
    }

    /** ideinit: no request queued and the device idle. */
    constructor (bufs: seq<Buf<D>>, ghost disk: seq<D>)
      ensures Valid() && Boot(St()) && this.bufs == bufs && this.disk == disk
    {
      this.bufs, this.disk := bufs, disk;
      qnext := seq(|bufs|, _ => None);
      idequeue, device := None, Idle;
      queue, waiting, submitted, completed := [], map[], [], [];
    }

    /** idestart: issue the command for buffer `b`. */
    method Idestart(b: nat)
      requires b < |bufs|
      modifies this`device
      ensures device == Active(CmdFor(bufs[b]))
    {
      if bufs[b].dirty {
        device := Active(Write(bufs[b].block, bufs[b].data));
      } else {
        device := Active(Read(bufs[b].block));
      }
    }

    /** iderw's walk to the end of the list. */
    method FindEnd() returns (pp: Place)
      requires Listed(qnext, idequeue, queue)
      ensures pp == if queue == [] then Head else Field(queue[|queue| - 1])
    {
      pp := Head;
      var at := idequeue;
      ghost var i := 0;
      while at.Some?
        invariant i <= |queue| && at == Link(queue, i) && pp == if i == 0 then Head else Field(queue[i - 1])
        decreases |queue| - i
      {
        pp := Field(at.value);
        at := qnext[at.value];
        i := i + 1;
      }
    }

    /** iderw up to its sleep. */
    method Iderw(b: nat)
      requires Valid() && Enabled(St(), Submit(b))      // else panic
      modifies this
      ensures Valid() && St() == Next(old(St()), Submit(b))
    {
      hide Inv, Listed;
      ghost var s := St();
      StepKeeps(s, Submit(b));
      NotQueued(s, b);
      qnext := qnext[b := None];
      StillListed(old(qnext), idequeue, queue, b);
      var pp := FindEnd();
      Appended(qnext, idequeue, queue, b);
      match pp {
        case Head => idequeue := Some(b);
        case Field(c) => qnext := qnext[c := Some(b)];
      }
      queue := queue + [b];
      if idequeue == Some(b) {
        Idestart(b);
      }
      waiting := waiting[b := true];
      submitted := submitted + [b];
    }

    /** ideintr. */
    method Ideintr()
      requires Valid() && Enabled(St(), Intr)
      modifies this
      ensures Valid() && St() == Next(old(St()), Intr)
    {
      hide Inv;
      ghost var s := St();
      StepKeeps(s, Intr);
      NextIsNot(s);
      if idequeue.None? {
        return;
      }
      var b := idequeue.value;
      idequeue := qnext[b];
      var f := bufs[b];
      if !f.dirty {
        f := f.(data := device.latch);
      }
      bufs := bufs[b := f.(valid := true, dirty := false)];
      queue := queue[1..];
      waiting := if b in waiting then waiting[b := false] else waiting;
      completed := completed + [b];
      Taken(qnext, Some(b), s.queue);
      if idequeue.Some? {
        Idestart(idequeue.value);
      } else {
        device := Idle;
      }
    }
  }

  lemma NotQueued<D>(s: State<D>, b: nat)
    requires Inv(s) && Enabled(s, Submit(b))
    ensures b !in s.queue && forall i, j :: 0 <= i < j < |s.queue| ==> s.queue[i] != s.queue[j]
  {
    forall i | 0 <= i < |s.queue| ensures s.queue[i] != b {
      assert QueuedOk(s, i);
    }
  }

  /** The request behind the head is another buffer. */
  lemma NextIsNot<D>(s: State<D>)
    requires Inv(s)
    ensures |s.queue| > 0 ==> s.queue[0] < |s.bufs|
    ensures |s.queue| > 1 ==> s.queue[1] < |s.bufs| && s.queue[1] != s.queue[0]
  {
    assert |s.queue| > 1 ==> QueuedOk(s, 1);
  }

  lemma StillListed(qnext: seq<Option<nat>>, head: Option<nat>, q: seq<nat>, b: nat)
    requires Listed(qnext, head, q) && b !in q && b < |qnext|
    ensures Listed(qnext[b := None], head, q) && head != Some(b) && (q == [] <==> head == None)
  {
  }

  lemma Taken(qnext: seq<Option<nat>>, head: Option<nat>, q: seq<nat>)
    requires Listed(qnext, head, q) && q != []
    ensures Listed(qnext, qnext[q[0]], q[1..])
  {
    forall i | 0 <= i < |q| - 1 ensures q[1..][i] < |qnext| && qnext[q[1..][i]] == Link(q[1..], i + 1) {
      assert q[1..][i] == q[i + 1];
    }
  }

  lemma Appended(qnext: seq<Option<nat>>, head: Option<nat>, q: seq<nat>, b: nat)
    requires Listed(qnext, head, q) && b !in q && b < |qnext| && qnext[b] == None
    requires forall i, j :: 0 <= i < j < |q| ==> q[i] != q[j]
    ensures q == [] ==> Listed(qnext, Some(b), q + [b])
    ensures q != [] ==> Listed(qnext[q[|q| - 1] := Some(b)], head, q + [b])
  {
    if q != [] {
      var q', qnext' := q + [b], qnext[q[|q| - 1] := Some(b)];
      forall i | 0 <= i < |q'| ensures q'[i] < |qnext'| && qnext'[q'[i]] == Link(q', i + 1) {
        assert i < |q| - 1 ==> q'[i] == q[i];
      }
    }
  }
}
