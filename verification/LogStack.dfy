/** The log over the buffer cache over the disk driver's queue.

    A buffer's data now reaches the disk, or arrives from it, only through a request that waits its turn in
    the driver's queue: iderw queues it, the device finishes it, the interrupt sets the flags and the
    sleeper looks again.  Power may fail between any two of these.  What the device then holds recovers
    to exactly the committed groups. */
module LogStack {
  import opened Common
  import C = BufCache
  import D = Ide
  import L = LogCache
  import M = LogMachine

  /** `l` is the log and the cache as they are once finished requests are counted as done; `d` is the
      driver, whose buffers are the real ones. */
  datatype State = State(l: L.State, d: D.State<M.Block>)

  datatype Event =
    | Kernel(e: L.Event)       // a step of the log, of an operation or of a reader, outside iderw
    | Submit(b: nat)           // iderw up to its sleep
    | Finish                   // the device finishes a request
    | Intr
    | Poke(b: nat)
    | Recheck(b: nat)
    | Crash

  /** The buffer as the driver sees it. */
  function View(f: C.Buf<M.Block>): D.Buf<M.Block> {
    D.Buf(if f.key.Some? then f.key.value.blockno else 0, f.busy, f.valid, f.dirty, f.data)
  }

  function Views(c: C.State<M.Block>): (r: seq<D.Buf<M.Block>>)
    ensures |r| == |c.bufs| && forall b :: 0 <= b < |r| ==> r[b] == View(c.bufs[b])
  {
    seq(|c.bufs|, b requires 0 <= b < |c.bufs| => View(c.bufs[b]))
  }

  /** The buffer a step changes, if any. */
  function Touched(e: L.Event): Option<nat> {
    match e
    case Cache(ce) => if ce.Wait? then None else Some(ce.b)
    case Modify(_, b, _) => Some(b)
    case LogWrite(_, b) => Some(b)
    case Copy(b, _) => Some(b)
    case Bwrite(b) => Some(b)
    case _ => None
  }

  /** The buffers a step looks into. */
  function Reads(e: L.Event): set<nat> {
    match e
    case Copy(b, from) => {b, from}
    case ReadHead(b) => {b}
    case _ => {}
  }

  /** The steps that are not the driver's business: no disk transfer and no crash. */
  predicate Outside(e: L.Event) {
    !e.Stored? && !e.Crash? && !(e.Cache? && e.e.Load?)
  }

  /** Only blocks of the one disk are asked for. */
  predicate OnDevice(g: M.Geometry, e: L.Event) {
    e.Cache? && e.e.Recycle? ==> e.e.k.dev == L.DEV && e.e.k.blockno < g.nblocks
  }

  predicate AtDisk(c: C.State<M.Block>, b: nat) {
    b in c.use && (c.use[b].phase == C.Loading || c.use[b].phase == C.Storing)
  }

  /** What finishing the request of buffer `b` does to the cache and the log. */
  function Done(l: L.State, b: nat): L.Event {
    if b in l.c.use && l.c.use[b].phase == C.Storing then L.Stored(b) else L.Cache(C.Load(b))
  }

  ghost predicate Enabled(g: M.Geometry, s: State, e: Event) {
    match e
    case Kernel(le) =>
      && Outside(le) && OnDevice(g, le) && L.Enabled(g, s.l, le)
      && (Touched(le).Some? ==> Touched(le).value !in s.d.waiting && Touched(le).value < |s.d.bufs|)
      && (forall b :: b in Reads(le) ==> b !in s.d.waiting)
    case Submit(b) => AtDisk(s.l.c, b) && D.Enabled(s.d, D.Submit(b))
    case Finish => D.Enabled(s.d, D.Finish) && s.d.queue != [] && L.Enabled(g, s.l, Done(s.l, s.d.queue[0]))
    case Intr => D.Enabled(s.d, D.Intr)
    case Poke(b) => D.Enabled(s.d, D.Poke(b))
    case Recheck(b) => D.Enabled(s.d, D.Recheck(b))
    case Crash => true
  }

  /** The driver after a step outside it. */
  ghost function Changed(d: D.State<M.Block>, le: L.Event, l': L.State): D.State<M.Block> {
    if Touched(le).Some? && Touched(le).value < |d.bufs| && Touched(le).value < |l'.c.bufs|
    then d.(bufs := d.bufs[Touched(le).value := View(l'.c.bufs[Touched(le).value])])
    else d
  }

  ghost function Next(g: M.Geometry, s: State, e: Event): State
    requires Enabled(g, s, e)
  {
    match e
    case Kernel(le) => var l' := L.Next(g, s.l, le); State(l', Changed(s.d, le, l'))
    case Submit(b) => s.(d := D.Next(s.d, D.Submit(b)))
    case Finish => State(L.Next(g, s.l, Done(s.l, s.d.queue[0])), D.Next(s.d, D.Finish))
    case Intr => s.(d := D.Next(s.d, D.Intr))
    case Poke(b) => s.(d := D.Next(s.d, D.Poke(b)))
    case Recheck(b) => s.(d := D.Next(s.d, D.Recheck(b)))
    case Crash =>
      var l' := L.Next(g, s.l, L.Crash);
      State(l', D.State(Views(l'.c), [], D.Idle, s.d.disk, map[], [], []))
  }

  ghost predicate Feasible(g: M.Geometry, s: State, es: seq<Event>)
    decreases |es|, 0
  {
    es == [] || (Feasible(g, s, es[..|es| - 1])
                 && Enabled(g, After(g, s, es[..|es| - 1]), es[|es| - 1]))
  }

  ghost function After(g: M.Geometry, s: State, es: seq<Event>): State
    requires Feasible(g, s, es)
    decreases |es|, 1
  {
    if es == [] then s else Next(g, After(g, s, es[..|es| - 1]), es[|es| - 1])
  }

  /** Power-on: blank buffers, no request, and any disk. */
  ghost predicate Boot(g: M.Geometry, s: State) {
    && L.Boot(g, s.l) && D.Boot(s.d) && s.d.bufs == Views(s.l.c) && s.d.disk == L.Disk(g, s.l.c)
  }

  // ---------------------------------------------------------------- the invariant

  /** A request that the device has not finished. */
  predicate Pending(d: D.State<M.Block>, b: nat) {
    b in d.queue && !(d.device.Done? && d.queue[0] == b)
  }

  ghost predicate Linked(g: M.Geometry, s: State) {
    && L.OnDisk(g, s.l.c) && s.d.disk == L.Disk(g, s.l.c)
    && D.Abs(s.d).bufs == Views(s.l.c)
    && (forall b :: Pending(s.d, b) ==> AtDisk(s.l.c, b))
    && (forall b :: 0 <= b < |s.l.c.bufs| ==> KeyOk(g, s.l.c.bufs[b]))
  }

  predicate KeyOk(g: M.Geometry, f: C.Buf<M.Block>) {
    f.key.Some? ==> f.key.value.dev == L.DEV && f.key.value.blockno < g.nblocks
  }

  ghost predicate Inv(g: M.Geometry, base: seq<M.Block>, s: State) {
    L.Inv(g, base, s.l) && D.Inv(s.d) && Linked(g, s)
  }

  /** What is at stake for the log: a step of the log's stack or none. */
  ghost function Step(g: M.Geometry, s: State, e: Event): Option<L.Event>
    requires Enabled(g, s, e)
  {
    match e
    case Kernel(le) => Some(le)
    case Finish => Some(Done(s.l, s.d.queue[0]))
    case Crash => Some(L.Crash)
    case _ => None
  }

  // ---------------------------------------------------------------- steps

  lemma TouchesOne(g: M.Geometry, l: L.State, le: L.Event)
    requires Outside(le) && L.Enabled(g, l, le)
    ensures var l' := L.Next(g, l, le);
            && l'.c.disk == l.c.disk && |l'.c.bufs| == |l.c.bufs|
            && forall b :: 0 <= b < |l.c.bufs| && Touched(le) != Some(b) ==> l'.c.bufs[b] == l.c.bufs[b]
  {
  }

  lemma UsesOne(g: M.Geometry, l: L.State, le: L.Event, b: nat)
    requires Outside(le) && L.Enabled(g, l, le) && Touched(le) != Some(b) && AtDisk(l.c, b)
    ensures AtDisk(L.Next(g, l, le).c, b)
  {
  }

  lemma KeysStay(g: M.Geometry, l: L.State, le: L.Event)
    requires L.Enabled(g, l, le) && OnDevice(g, le) && Outside(le)
    requires forall b :: 0 <= b < |l.c.bufs| ==> KeyOk(g, l.c.bufs[b])
    ensures forall b :: 0 <= b < |L.Next(g, l, le).c.bufs| ==> KeyOk(g, L.Next(g, l, le).c.bufs[b])
  {
  }

  lemma PendingWaits(d: D.State<M.Block>, b: nat)
    requires D.Inv(d) && b in d.queue
    ensures b in d.waiting && b < |d.bufs|
  {
    var i :| 0 <= i < |d.queue| && d.queue[i] == b;
    assert D.QueuedOk(d, i);
  }

  lemma KernelStep(g: M.Geometry, base: seq<M.Block>, s: State, le: L.Event)
    requires Inv(g, base, s) && Enabled(g, s, Kernel(le))
    ensures Inv(g, base, Next(g, s, Kernel(le)))
  {
    hide L.Inv, D.Inv, L.Enabled, L.Next;
    var s' := Next(g, s, Kernel(le));
    L.StepRefines(g, base, s.l, le);
    TouchesOne(g, s.l, le);
    KeysStay(g, s.l, le);
    L.SameDisk(g, s.l.c, s'.l.c);
    forall b | Pending(s.d, b) ensures AtDisk(s'.l.c, b) {
      PendingWaits(s.d, b);
      UsesOne(g, s.l, le, b);
    }
    if Touched(le).Some? {
      var b := Touched(le).value;
      var own := D.Owner(b, View(s'.l.c.bufs[b]));
      D.StepKeeps(s.d, own);
      D.StepRefines(s.d, own);
      assert D.Abs(s'.d).bufs == Views(s'.l.c);
    }
  }

  lemma SubmitStep(g: M.Geometry, base: seq<M.Block>, s: State, b: nat)
    requires Inv(g, base, s) && Enabled(g, s, Submit(b))
    ensures Inv(g, base, Next(g, s, Submit(b)))
  {
    hide L.Inv, D.Inv;
    D.StepKeeps(s.d, D.Submit(b));
    D.StepRefines(s.d, D.Submit(b));
    hide D.Abs;
    var d' := D.Next(s.d, D.Submit(b));
    forall a | Pending(d', a) ensures AtDisk(s.l.c, a) {
      if a != b { assert a in s.d.queue; }
    }
  }

  /** Whatever the device finishes, the cache was waiting for. */
  lemma FinishIsReady(g: M.Geometry, base: seq<M.Block>, s: State)
    requires Inv(g, base, s) && D.Enabled(s.d, D.Finish)
    ensures s.d.queue != [] && Enabled(g, s, Finish)
  {
    hide L.Inv;
    var b := s.d.queue[0];
    assert Pending(s.d, b);
    assert AtDisk(s.l.c, b);
    InRange(g, base, s.l, b);
  }

  lemma InRange(g: M.Geometry, base: seq<M.Block>, l: L.State, b: nat)
    requires L.Inv(g, base, l) && AtDisk(l.c, b)
    ensures b < |l.c.bufs| && l.c.bufs[b].key.Some?
    ensures l.c.use[b].phase == C.Storing <==> l.c.bufs[b].dirty
  {
    hide M.Inv, L.BufOk;
    assert C.BufOk(l.c, b);
  }

  /** Finishing a request is the same in the driver and in the cache. */
  lemma FinishSame(g: M.Geometry, base: seq<M.Block>, l: L.State, m: D.Mem<M.Block>, b: nat)
    requires L.Inv(g, base, l) && AtDisk(l.c, b) && L.Enabled(g, l, Done(l, b))
    requires m.bufs == Views(l.c) && m.disk == L.Disk(g, l.c)
    requires b < |l.c.bufs| && KeyOk(g, l.c.bufs[b])
    ensures b < |m.bufs| && m.bufs[b].block < |m.disk|
    ensures var l' := L.Next(g, l, Done(l, b));
            L.OnDisk(g, l'.c) && D.MemIderw(m, b) == D.Mem(Views(l'.c), L.Disk(g, l'.c))
  {
    hide L.Inv;
    InRange(g, base, l, b);
    InvOnDisk(g, base, l);
    var l' := L.Next(g, l, Done(l, b));
    var m' := D.MemIderw(m, b);
    assert m'.bufs == Views(l'.c);
    assert m'.disk == L.Disk(g, l'.c);
  }

  lemma InvOnDisk(g: M.Geometry, base: seq<M.Block>, l: L.State)
    requires L.Inv(g, base, l)
    ensures L.OnDisk(g, l.c)
  {
  }

  lemma FinishStep(g: M.Geometry, base: seq<M.Block>, s: State)
    requires Inv(g, base, s) && Enabled(g, s, Finish)
    ensures Inv(g, base, Next(g, s, Finish))
  {
    hide L.Inv, D.Inv, L.Enabled, L.Next;
    var b := s.d.queue[0];
    assert Pending(s.d, b);
    var le := Done(s.l, b);
    var s' := Next(g, s, Finish);
    InRange(g, base, s.l, b);
    L.StepRefines(g, base, s.l, le);
    D.StepKeeps(s.d, D.Finish);
    D.StepRefines(s.d, D.Finish);
    FinishSame(g, base, s.l, D.Abs(s.d), b);
    OthersStay(g, s.l, b);
    KeysKept(g, s.l, b);
    assert s'.d.disk == D.Abs(s'.d).disk;
    forall a | Pending(s'.d, a) ensures AtDisk(s'.l.c, a) {
      assert Pending(s.d, a) && a != b;
    }
  }

  lemma OthersStay(g: M.Geometry, l: L.State, b: nat)
    requires L.Enabled(g, l, Done(l, b))
    ensures forall a :: a != b && AtDisk(l.c, a) ==> AtDisk(L.Next(g, l, Done(l, b)).c, a)
  {
  }

  lemma KeysKept(g: M.Geometry, l: L.State, b: nat)
    requires L.Enabled(g, l, Done(l, b)) && forall a :: 0 <= a < |l.c.bufs| ==> KeyOk(g, l.c.bufs[a])
    ensures forall a :: 0 <= a < |L.Next(g, l, Done(l, b)).c.bufs| ==> KeyOk(g, L.Next(g, l, Done(l, b)).c.bufs[a])
  {
  }

  /** The driver's own steps change nothing the cache can see. */
  lemma DriverStep(g: M.Geometry, base: seq<M.Block>, s: State, e: Event)
    requires Inv(g, base, s) && Enabled(g, s, e) && (e.Intr? || e.Poke? || e.Recheck?)
    ensures Inv(g, base, Next(g, s, e))
  {
    hide L.Inv;
    var de := if e.Intr? then D.Intr else if e.Poke? then D.Poke(e.b) else D.Recheck(e.b);
    D.StepKeeps(s.d, de);
    D.StepRefines(s.d, de);
    var d' := D.Next(s.d, de);
    hide D.Inv;
    forall a | Pending(d', a) ensures Pending(s.d, a) {
      if e.Intr? && s.d.queue != [] { HeadIsOnce(s.d, a); }
    }
  }

  lemma HeadIsOnce(d: D.State<M.Block>, a: nat)
    requires D.Inv(d) && d.queue != [] && a in d.queue[1..]
    ensures a in d.queue && a != d.queue[0]
  {
    var i :| 0 <= i < |d.queue[1..]| && d.queue[1..][i] == a;
    assert d.queue[i + 1] == a;
  }

  lemma CrashStep(g: M.Geometry, base: seq<M.Block>, s: State)
    requires Inv(g, base, s)
    ensures L.Enabled(g, s.l, L.Crash) && Inv(g, base, Next(g, s, Crash))
  {
    hide L.Inv;
    L.StepRefines(g, base, s.l, L.Crash);
    L.SameDisk(g, s.l.c, Next(g, s, Crash).l.c);
  }

  lemma StepKeeps(g: M.Geometry, base: seq<M.Block>, s: State, e: Event)
    requires Inv(g, base, s) && Enabled(g, s, e)
    ensures Inv(g, base, Next(g, s, e))
    ensures Step(g, s, e).None? ==> Next(g, s, e).l == s.l
    ensures Step(g, s, e).Some? ==>
              L.Enabled(g, s.l, Step(g, s, e).value) && Next(g, s, e).l == L.Next(g, s.l, Step(g, s, e).value)
  {
    hide Inv, L.Enabled, L.Next, D.Enabled, D.Next;
    match e
    case Kernel(le) => KernelStep(g, base, s, le);
    case Submit(b) => SubmitStep(g, base, s, b);
    case Finish => FinishStep(g, base, s);
    case Crash => CrashStep(g, base, s);
    case _ => DriverStep(g, base, s, e);
  }

  // ---------------------------------------------------------------- whole runs

  ghost function Trace(g: M.Geometry, s: State, es: seq<Event>): seq<L.Event>
    requires Feasible(g, s, es)
  {
    if es == [] then []
    else
      var tr := Trace(g, s, es[..|es| - 1]);
      match Step(g, After(g, s, es[..|es| - 1]), es[|es| - 1])
      case Some(le) => tr + [le]
      case None => tr
  }

  lemma BootInv(g: M.Geometry, base: seq<M.Block>, s: State)
    requires g.Ok() && Boot(g, s) && M.Durable(g, s.d.disk, base)
    ensures Inv(g, base, s)
  {
    hide L.Inv, M.Durable;
    L.BootInv(g, base, s.l);
    forall b | 0 <= b < |s.l.c.bufs| ensures KeyOk(g, s.l.c.bufs[b]) {
      assert C.Blank(s.l.c.bufs[b]);
    }
  }

  lemma RunSnoc(g: M.Geometry, l: L.State, es: seq<L.Event>, e: L.Event)
    requires L.Feasible(g, l, es) && L.Enabled(g, L.After(g, l, es), e)
    ensures L.Feasible(g, l, es + [e]) && L.After(g, l, es + [e]) == L.Next(g, L.After(g, l, es), e)
  {
    assert (es + [e])[..|es + [e]| - 1] == es;
  }

  lemma Started(g: M.Geometry, l: L.State)
    ensures L.Feasible(g, l, []) && L.After(g, l, []) == l
  {
  }

  /** Every run of the whole stack is a run of the log over the cache. */
  lemma {:induction false} RunRefines(g: M.Geometry, base: seq<M.Block>, s: State, es: seq<Event>)
    requires g.Ok() && Boot(g, s) && M.Durable(g, s.d.disk, base) && Feasible(g, s, es)
    ensures Inv(g, base, After(g, s, es))
    ensures L.Feasible(g, s.l, Trace(g, s, es)) && After(g, s, es).l == L.After(g, s.l, Trace(g, s, es))
    decreases |es|
  {
    hide Inv, Boot, Enabled, Next, Step, L.Enabled, L.Next, L.Feasible, L.After, M.Durable;
    if es == [] {
      BootInv(g, base, s);
      Started(g, s.l);
    } else {
      var es0, e := es[..|es| - 1], es[|es| - 1];
      RunRefines(g, base, s, es0);
      var t := After(g, s, es0);
      StepKeeps(g, base, t, e);
      if Step(g, t, e).Some? {
        RunSnoc(g, s.l, Trace(g, s, es0), Step(g, t, e).value);
      }
    }
  }

  /** Crash atomicity of the whole stack.  Whatever the run, and wherever requests stand in the queue
      when the power fails, the device holds a disk that recovers to the first disk with exactly the
      committed groups applied, in commit order. */
  lemma CrashAtomicity(g: M.Geometry, base: seq<M.Block>, s: State, es: seq<Event>)
    requires g.Ok() && Boot(g, s) && M.Durable(g, s.d.disk, base) && Feasible(g, s, es)
    ensures var t := After(g, s, es);
            && g.DiskShape(t.d.disk) && M.HeaderOk(g, t.d.disk[g.logStart])
            && M.SameHome(g, M.Recovered(g, t.d.disk), M.ApplyGroups(base, t.l.committed))
  {
    hide M.Durable, M.HeaderOk, M.Recovered, M.SameHome, L.Inv, D.Inv, L.Feasible, L.After, Feasible, After, L.Disk;
    RunRefines(g, base, s, es);
    L.CrashAtomicity(g, base, s.l, Trace(g, s, es));
  }

  /** And the data in a held buffer, once its holder is out of iderw, is every committed group and
      everything the open operations have logged. */
  lemma ReadsSeeEverything(g: M.Geometry, base: seq<M.Block>, s: State, es: seq<Event>, p: nat, b: nat, x: nat)
    requires g.Ok() && Boot(g, s) && M.Durable(g, s.d.disk, base) && Feasible(g, s, es)
    requires var t := After(g, s, es);
             t.l.pc == M.Serving && g.Home(x) && L.Has(t.l, p, b, x) && b !in t.d.waiting
    ensures var t := After(g, s, es);
            && b < |t.d.bufs| && x < |base|
            && t.d.bufs[b].data == M.Apply(M.ApplyGroups(base, t.l.committed), t.l.open)[x]
  {
    hide M.Durable, L.Inv, D.Inv, L.Feasible, L.After, Feasible, After, M.ApplyGroups, M.Apply;
    RunRefines(g, base, s, es);
    L.ReadsSeeEverything(g, base, s.l, Trace(g, s, es), p, b, x);
    var t := After(g, s, es);
    if t.d.queue != [] { PendingWaits(t.d, t.d.queue[0]); }
    assert D.Abs(t.d).bufs[b] == View(t.l.c.bufs[b]);
  }

  /** The driver's own steps in the stack: a request goes to the end of the queue and its caller sleeps, the interrupt
      takes the first off and wakes its caller, and a caller returns exactly when its buffer has left the queue. */
  lemma CallersInTheStack(g: M.Geometry, base: seq<M.Block>, s: State, e: Event, b: nat)
    requires Inv(g, base, s) && Enabled(g, s, e) && (e.Submit? || e.Intr? || e.Poke? || e.Recheck?)
    ensures var d, d' := s.d, Next(g, s, e).d;
            && d'.queue == (match e
                            case Submit(a) => d.queue + [a]
                            case Intr => if d.queue == [] then [] else d.queue[1..]
                            case _ => d.queue)
            && (b in d'.waiting <==> e == Submit(b) || (b in d.waiting && !(e == Recheck(b) && b !in d.queue)))
            && (b in d'.waiting ==>
                  d'.waiting[b] == if e == Submit(b) || e == Recheck(b) then true
                                   else if e == Poke(b) || (e == Intr && d.queue != [] && d.queue[0] == b) then false
                                   else b in d.waiting && d.waiting[b])
  {
    D.InsideIderw(s.d, match e
                       case Submit(a) => D.Submit(a)
                       case Intr => D.Intr
                       case Poke(a) => D.Poke(a)
                       case Recheck(a) => D.Recheck(a), b);
  }
}
