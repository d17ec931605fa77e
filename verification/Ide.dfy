/**
 * The disk driver as a step machine: iderw appends a request to the queue and sleeps, the device works on
 * the request at the head, and its interrupt finishes that request and starts the next.  The machine
 * refines the synchronous in-memory disk: each request takes effect there in one step, in the order the
 * requests were made.
 */
module Ide {

  datatype Buf<D> = Buf(block: nat, busy: bool, valid: bool, dirty: bool, data: D)

  datatype Cmd<D> = Read(block: nat) | Write(block: nat, data: D)

  /** Active: a command was issued.  Done: it has finished, and the data read waits for the interrupt. */
  datatype Device<D> = Idle | Active(cmd: Cmd<D>) | Done(latch: D)

  /** `waiting`: the buffers some process is inside iderw for, and whether it is asleep.
      `submitted` and `completed` record the order of the requests. */
  datatype State<D> = State(bufs: seq<Buf<D>>, queue: seq<nat>, device: Device<D>, disk: seq<D>,
                            waiting: map<nat, bool>, submitted: seq<nat>, completed: seq<nat>)

  datatype Event<D> =
    | Owner(b: nat, f: Buf<D>)   // the holder of a buffer changes it, outside iderw
    | Submit(b: nat)             // iderw up to its sleep
    | Finish                     // the device finishes the active command
    | Intr                       // ideintr, also when there is nothing to do
    | Poke(b: nat)               // the sleeper is made runnable by something else
    | Recheck(b: nat)            // iderw tests the flags again: it returns or sleeps again

  predicate Synced<D>(f: Buf<D>) { f.valid && !f.dirty }

  function CmdFor<D>(f: Buf<D>): Cmd<D> { if f.dirty then Write(f.block, f.data) else Read(f.block) }

  function Start<D>(bufs: seq<Buf<D>>, queue: seq<nat>): Device<D> {
    if queue != [] && queue[0] < |bufs| then Active(CmdFor(bufs[queue[0]])) else Idle
  }

  predicate Enabled<D>(s: State<D>, e: Event<D>) {
    match e
    case Owner(b, f) => b < |s.bufs| && b !in s.waiting
    case Submit(b) =>
      b < |s.bufs| && b !in s.waiting && s.bufs[b].busy && !Synced(s.bufs[b]) && s.bufs[b].block < |s.disk|
    case Finish => s.device.Active? && s.device.cmd.block < |s.disk|
    case Intr => s.queue == [] || (s.device.Done? && s.queue[0] < |s.bufs|)
    case Poke(b) => b in s.waiting
    case Recheck(b) => b in s.waiting && !s.waiting[b] && b < |s.bufs|
  }

  /** What ideintr does to the buffer of the finished request. */
  function Finished<D>(f: Buf<D>, latch: D): Buf<D> {
    f.(valid := true, dirty := false, data := if f.dirty then f.data else latch)
  }

  function Next<D>(s: State<D>, e: Event<D>): State<D>
    requires Enabled(s, e)
  {
    match e
    case Owner(b, f) => s.(bufs := s.bufs[b := f])
    case Submit(b) =>
      s.(queue := s.queue + [b], device := if s.queue == [] then Active(CmdFor(s.bufs[b])) else s.device,
         waiting := s.waiting[b := true], submitted := s.submitted + [b])
    case Finish =>
      match s.device.cmd {
        case Write(k, d) => s.(disk := s.disk[k := d], device := Done(d))
        case Read(k) => s.(device := Done(s.disk[k]))
      }
    case Intr =>
      if s.queue == [] then s
      else
        var b := s.queue[0];
        s.(bufs := s.bufs[b := Finished(s.bufs[b], s.device.latch)], queue := s.queue[1..],
           device := Start(s.bufs, s.queue[1..]),
           waiting := if b in s.waiting then s.waiting[b := false] else s.waiting,
           completed := s.completed + [b])
    case Poke(b) => s.(waiting := s.waiting[b := false])
    case Recheck(b) =>
      if Synced(s.bufs[b]) then s.(waiting := s.waiting - {b}) else s.(waiting := s.waiting[b := true])
  }

  ghost predicate Feasible<D>(s: State<D>, es: seq<Event<D>>)
    decreases |es|, 0
  {
    es == [] || (Feasible(s, es[..|es| - 1]) && Enabled(After(s, es[..|es| - 1]), es[|es| - 1]))
  }

  ghost function After<D>(s: State<D>, es: seq<Event<D>>): State<D>
    requires Feasible(s, es)
    decreases |es|, 1
  {
    if es == [] then s else Next(After(s, es[..|es| - 1]), es[|es| - 1])
  }

  ghost predicate Boot<D>(s: State<D>) {
    s.queue == [] && s.device == Idle && s.waiting == map[] && s.submitted == [] && s.completed == []
  }

  // ---------------------------------------------------------------------------------------------
  // The invariant

  ghost predicate QueuedOk<D>(s: State<D>, i: nat)
    requires i < |s.queue|
  {
    var b := s.queue[i];
    b < |s.bufs| && b in s.waiting && !Synced(s.bufs[b]) && s.bufs[b].block < |s.disk|
  }

  /** A process inside iderw is in the queue, or its buffer is done and it is awake. */
  ghost predicate WaiterOk<D>(s: State<D>, b: nat)
    requires b in s.waiting
  {
    b < |s.bufs| && (b in s.queue || (Synced(s.bufs[b]) && !s.waiting[b]))
  }

  /** The device works on the head of the queue and on nothing else. */
  ghost predicate DeviceOk<D>(s: State<D>) {
    && (s.queue == [] <==> s.device == Idle)
    && (s.queue != [] ==>
          && s.queue[0] < |s.bufs| && s.bufs[s.queue[0]].block < |s.disk|
          && var f := s.bufs[s.queue[0]];
             && (s.device.Active? ==> s.device.cmd == CmdFor(f))
             && (s.device.Done? ==> s.device.latch == s.disk[f.block] && (f.dirty ==> s.disk[f.block] == f.data)))
  }

  ghost predicate QueueOk<D>(s: State<D>) {
    && (forall i :: 0 <= i < |s.queue| ==> QueuedOk(s, i))
    && (forall i, j :: 0 <= i < j < |s.queue| ==> s.queue[i] != s.queue[j])
  }

  ghost predicate Inv<D>(s: State<D>) {
    && DeviceOk(s)
    && QueueOk(s)
    && (forall b :: b in s.waiting ==> WaiterOk(s, b))
    && s.submitted == s.completed + s.queue
  }

  lemma StepKeeps<D>(s: State<D>, e: Event<D>)
    requires Inv(s) && Enabled(s, e)
    ensures Inv(Next(s, e))
  {
    hide QueueOk, DeviceOk, WaiterOk;
    var t := Next(s, e);
    QueueStep(s, e);
    DeviceStep(s, e);
    forall b | b in t.waiting ensures WaiterOk(t, b) {
      WaiterStep(s, e, b);
    }
    assert t.submitted == t.completed + t.queue;
  }

  lemma QueueStep<D>(s: State<D>, e: Event<D>)
    requires QueueOk(s) && Enabled(s, e)
    ensures QueueOk(Next(s, e))
  {
    var t := Next(s, e);
    forall i | 0 <= i < |t.queue| ensures QueuedOk(t, i) {
      if e.Intr? && s.queue != [] {
        assert QueuedOk(s, i + 1) && s.queue[0] != s.queue[i + 1];
      } else if i < |s.queue| {
        assert QueuedOk(s, i);
      }
    }
    if e.Submit? {
      forall i | 0 <= i < |s.queue| ensures s.queue[i] != e.b {
        assert QueuedOk(s, i);
      }
    }
  }

  lemma DeviceStep<D>(s: State<D>, e: Event<D>)
    requires Inv(s) && Enabled(s, e)
    ensures DeviceOk(Next(s, e))
  {
    assert s.queue != [] ==> QueuedOk(s, 0);
    assert |s.queue| > 1 ==> QueuedOk(s, 1) && s.queue[0] != s.queue[1];
  }

  lemma WaiterStep<D>(s: State<D>, e: Event<D>, b: nat)
    requires Inv(s) && Enabled(s, e) && b in Next(s, e).waiting
    ensures WaiterOk(Next(s, e), b)
  {
    var t := Next(s, e);
    assert b in s.waiting ==> WaiterOk(s, b);
    if e.Intr? && s.queue != [] && b in s.queue && b != s.queue[0] {
      var i :| 0 <= i < |s.queue| && s.queue[i] == b;
      assert t.queue[i - 1] == b;
    }
    if e.Submit? {
      assert t.queue[|s.queue|] == e.b;
    }
    if e.Recheck? && e.b == b && b in s.queue {
      var i :| 0 <= i < |s.queue| && s.queue[i] == b;
      assert QueuedOk(s, i);
    }
  }

  lemma {:induction false} RunInv<D>(s: State<D>, es: seq<Event<D>>)
    requires Boot(s) && Feasible(s, es)
    ensures Inv(After(s, es))
    decreases |es|
  {
    if es != [] {
      RunInv(s, es[..|es| - 1]);
      StepKeeps(After(s, es[..|es| - 1]), es[|es| - 1]);
    }
  }

  // ---------------------------------------------------------------------------------------------
  // Refinement of the in-memory disk

  datatype Mem<D> = Mem(bufs: seq<Buf<D>>, disk: seq<D>)

  /** The in-memory disk's iderw. */
  function MemIderw<D>(m: Mem<D>, b: nat): Mem<D>
    requires b < |m.bufs| && m.bufs[b].block < |m.disk|
  {
    var f := m.bufs[b];
    if f.dirty then Mem(m.bufs[b := f.(valid := true, dirty := false)], m.disk[f.block := f.data])
    else Mem(m.bufs[b := f.(valid := true, data := m.disk[f.block])], m.disk)
  }

  /** The synchronous state a driver state stands for: a request has happened once the device is done. */
  ghost function Abs<D>(s: State<D>): Mem<D> {
    if s.device.Done? && s.queue != [] && s.queue[0] < |s.bufs|
    then Mem(s.bufs[s.queue[0] := Finished(s.bufs[s.queue[0]], s.device.latch)], s.disk)
    else Mem(s.bufs, s.disk)
  }

  /** Every driver step is one synchronous request, a change by a holder, or nothing. */
  lemma StepRefines<D>(s: State<D>, e: Event<D>)
    requires Inv(s) && Enabled(s, e)
    ensures match e
            case Finish => s.queue != [] && s.queue[0] < |Abs(s).bufs| &&
                           Abs(s).bufs[s.queue[0]].block < |Abs(s).disk| &&
                           Abs(Next(s, e)) == MemIderw(Abs(s), s.queue[0])
            case Owner(b, f) => b < |Abs(s).bufs| && Abs(Next(s, e)) == Abs(s).(bufs := Abs(s).bufs[b := f])
            case _ => Abs(Next(s, e)) == Abs(s)
  {
    if s.queue != [] {
      assert QueuedOk(s, 0);
    }
    if e.Owner? && s.device.Done? {
      assert s.bufs[e.b := e.f][s.queue[0] := Finished(s.bufs[s.queue[0]], s.device.latch)] ==
             s.bufs[s.queue[0] := Finished(s.bufs[s.queue[0]], s.device.latch)][e.b := e.f];
    }
  }

  /** A step of the in-memory disk's users. */
  datatype Sync<D> = Call(b: nat) | Change(b: nat, f: Buf<D>)

  /** The synchronous calls and changes of a run, in order. */
  ghost function Trace<D>(s: State<D>, es: seq<Event<D>>): (tr: seq<Sync<D>>)
    requires Feasible(s, es)
    decreases |es|
  {
    if es == [] then []
    else
      var tr, z, e := Trace(s, es[..|es| - 1]), After(s, es[..|es| - 1]), es[|es| - 1];
      match e
      case Finish => if z.queue == [] then tr else tr + [Call(z.queue[0])]
      case Owner(b, f) => tr + [Change(b, f)]
      case _ => tr
  }

  ghost function SyncRun<D>(m: Mem<D>, tr: seq<Sync<D>>): Mem<D> {
    if tr == [] then m
    else
      var z, c := SyncRun(m, tr[..|tr| - 1]), tr[|tr| - 1];
      if c.b >= |z.bufs| then z
      else match c {
        case Change(b, f) => z.(bufs := z.bufs[b := f])
        case Call(b) => if z.bufs[b].block < |z.disk| then MemIderw(z, b) else z
      }
  }

  /** Over every run, the buffers and the disk are what the same calls and changes give synchronously. */
  lemma {:induction false} QueueRefinesMemory<D>(s: State<D>, es: seq<Event<D>>)
    requires Boot(s) && Feasible(s, es)
    ensures Abs(After(s, es)) == SyncRun(Mem(s.bufs, s.disk), Trace(s, es))
    decreases |es|
  {
    if es != [] {
      var es0, e := es[..|es| - 1], es[|es| - 1];
      QueueRefinesMemory(s, es0);
      RunInv(s, es0);
      StepRefines(After(s, es0), e);
      var tr0, tr := Trace(s, es0), Trace(s, es);
      if tr != tr0 {
        assert tr[..|tr| - 1] == tr0;
      }
    }
  }

  // ---------------------------------------------------------------------------------------------
  // Order, exactly-once, and no forgotten request

  /** Requests complete in the order they were made, each once; the rest are the queue. */
  lemma FirstComeFirstServed<D>(s: State<D>, es: seq<Event<D>>)
    requires Boot(s) && Feasible(s, es)
    ensures After(s, es).submitted == After(s, es).completed + After(s, es).queue
  {
    RunInv(s, es);
  }

  ghost function Submits<D>(es: seq<Event<D>>, b: nat): nat {
    if es == [] then 0 else Submits(es[..|es| - 1], b) + if es[|es| - 1] == Submit(b) then 1 else 0
  }

  ghost function Calls<D>(tr: seq<Sync<D>>, b: nat): nat {
    if tr == [] then 0 else Calls(tr[..|tr| - 1], b) + if tr[|tr| - 1] == Call(b) then 1 else 0
  }

  /** A request that has not taken effect. */
  ghost function Pending<D>(s: State<D>, b: nat): nat {
    if b in s.queue && !(s.device.Done? && s.queue[0] == b) then 1 else 0
  }

  lemma PendingStep<D>(s: State<D>, e: Event<D>, b: nat)
    requires Inv(s) && Enabled(s, e)
    ensures Pending(Next(s, e), b) + (if e == Finish && s.queue != [] && s.queue[0] == b then 1 else 0) ==
            Pending(s, b) + if e == Submit(b) then 1 else 0
  {
    var t := Next(s, e);
    if e.Submit? {
      assert b in t.queue <==> b in s.queue || b == e.b;
      if b in s.queue {
        var i :| 0 <= i < |s.queue| && s.queue[i] == b;
        assert QueuedOk(s, i);
      }
    } else if e.Intr? && s.queue != [] {
      assert s.queue == [s.queue[0]] + t.queue;
      assert s.queue[0] !in t.queue;
    }
  }

  /** Every request has exactly one effect: those made are those that took effect and the one pending. */
  lemma {:induction false} EachRequestOnce<D>(s: State<D>, es: seq<Event<D>>, b: nat)
    requires Boot(s) && Feasible(s, es)
    ensures Submits(es, b) == Calls(Trace(s, es), b) + Pending(After(s, es), b)
    decreases |es|
  {
    if es != [] {
      var es0, e := es[..|es| - 1], es[|es| - 1];
      EachRequestOnce(s, es0, b);
      RunInv(s, es0);
      PendingStep(After(s, es0), e, b);
      var tr0, tr := Trace(s, es0), Trace(s, es);
      if tr != tr0 {
        assert tr[..|tr| - 1] == tr0;
      }
    }
  }

  /** iderw returns only when its own request has taken effect and the interrupt has been handled. */
  lemma ReturnsWhenDone<D>(s: State<D>, es: seq<Event<D>>, b: nat)
    requires Boot(s) && Feasible(s, es) && Enabled(After(s, es), Recheck(b))
    ensures var z := After(s, es);
            b !in Next(z, Recheck(b)).waiting <==> b !in z.queue
    ensures var z := After(s, es);
            b !in z.queue ==> Synced(z.bufs[b]) && Submits(es, b) == Calls(Trace(s, es), b) &&
                              b < |Abs(z).bufs| && Abs(z).bufs[b] == z.bufs[b]
  {
    RunInv(s, es);
    EachRequestOnce(s, es, b);
    var z := After(s, es);
    assert WaiterOk(z, b);
    if b in z.queue {
      var i :| 0 <= i < |z.queue| && z.queue[i] == b;
      assert QueuedOk(z, i);
    }
  }

  /** Whoever sleeps has a request in the queue, and the device is at work on the head: no wakeup is
      missed and no request is forgotten. */
  lemma NobodyForgotten<D>(s: State<D>, es: seq<Event<D>>, b: nat)
    requires Boot(s) && Feasible(s, es) && b in After(s, es).waiting && After(s, es).waiting[b]
    ensures var z := After(s, es);
            && b in z.queue && z.device != Idle && z.queue[0] < |z.bufs|
            && (z.device.Active? ==> z.device.cmd == CmdFor(z.bufs[z.queue[0]]))
  {
    RunInv(s, es);
    assert WaiterOk(After(s, es), b);
  }

  /** Who is inside iderw, and asleep: a caller sleeps from its request on and again whenever it finds its buffer not
      done; the interrupt for its buffer wakes it; and it returns only when it finds its buffer done. */
  lemma InsideIderw<D>(s: State<D>, e: Event<D>, b: nat)
    requires Inv(s) && Enabled(s, e)
    ensures var s' := Next(s, e);
            && (b in s'.waiting <==> e == Submit(b) || (b in s.waiting && !(e == Recheck(b) && b !in s.queue)))
            && (b in s'.waiting ==>
                  s'.waiting[b] == if e == Submit(b) || e == Recheck(b) then true
                                   else if e == Poke(b) || (e == Intr && s.queue != [] && s.queue[0] == b) then false
                                   else b in s.waiting && s.waiting[b])
  {
    if b in s.waiting {
      assert WaiterOk(s, b);
      if b in s.queue {
        var i :| 0 <= i < |s.queue| && s.queue[i] == b;
        assert QueuedOk(s, i);
      }
    }
    assert s.queue != [] ==> QueuedOk(s, 0);
  }

  /** How many steps the device and its interrupt have left for the queue. */
  function DriverLeft<D>(s: State<D>): int { 2 * |s.queue| - if s.device.Done? then 1 else 0 }

  /** While there are requests the device or its interrupt can take a step, and each brings the end of the queue one
      nearer; the interrupt finishes the first request. */
  lemma DriverGoesOn<D>(s: State<D>, es: seq<Event<D>>)
    requires Boot(s) && Feasible(s, es) && After(s, es).queue != []
    ensures var z := After(s, es);
            var e := if z.device.Active? then Finish else Intr;
            && Enabled(z, e) && DriverLeft(Next(z, e)) == DriverLeft(z) - 1
            && (e == Intr ==>
                  var z' := Next(z, e);
                  z'.queue == z.queue[1..] && z'.completed == z.completed + [z.queue[0]] && |z'.bufs| == |z.bufs|
                  && Synced(z'.bufs[z.queue[0]]))
  {
    RunInv(s, es);
    assert QueuedOk(After(s, es), 0);
  }

  /** A caller that is awake can look again, and a holder of a buffer that is not done can call iderw. */
  lemma CallersGoOn<D>(s: State<D>, es: seq<Event<D>>, b: nat)
    requires Boot(s) && Feasible(s, es)
    ensures var z := After(s, es);
            && (b in z.waiting && !z.waiting[b] ==> Enabled(z, Recheck(b)))
            && (&& b < |z.bufs| && b !in z.waiting
                && z.bufs[b].busy && !Synced(z.bufs[b]) && z.bufs[b].block < |z.disk| ==>
                  Enabled(z, Submit(b)))
  {
    RunInv(s, es);
    assert b in After(s, es).waiting ==> WaiterOk(After(s, es), b);
  }
}
