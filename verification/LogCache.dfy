/** The log over the buffer cache.

    Here the log's blocks are buffers: operations change buffers they hold and pass them to
    log_write, the committing thread copies between buffers with bread and bwrite, anybody may
    read, and a crash loses every buffer.  Each step is a step of LogMachine or none, so the disk
    under the cache recovers to exactly the committed groups at every point of every run.

    The rule callers keep: only a block of the file system is changed by an operation, it is passed
    to log_write before it is released, and nobody but the committing thread calls bwrite. */
module LogCache {
  import opened Common
  import C = BufCache
  import M = LogMachine
  import Steps = LogCode

  const DEV: nat := 1

  function K(x: nat): C.Key { C.Key(DEV, x) }

  /** The log's memory and the cache; `logged`, `committed`, `open` and `seen` are history. */
  datatype State = State(
    c: C.State<M.Block>,
    lh: seq<nat>,
    ops: seq<M.Op>,
    pc: M.Pc,
    logged: map<nat, M.Block>,    // what each header entry held when it was last passed to log_write
    committed: seq<M.Group>,
    open: M.Group,
    seen: set<nat>
  )

  /** The thread that commits or recovers; operations have the other process numbers. */
  const KERNEL: nat := 0

  function Pid(op: M.Op): nat { op.id + 1 }

  datatype Event =
    | Cache(e: C.Event<M.Block>)              // bget, the end of a disk read, or brelse, by anybody
    | BeginOp(id: nat)
    | Modify(i: nat, b: nat, data: M.Block)   // an operation changes a buffer it holds
    | LogWrite(i: nat, b: nat)
    | LogWritePanic(i: nat)
    | EndOp(i: nat)
    | Copy(b: nat, from: nat)                 // memmove between two held buffers, or fill the header
    | Bwrite(b: nat)                          // queue the buffer for the disk
    | Stored(b: nat)                          // the disk write finishes
    | FinishCommit
    | Crash
    | ReadHead(b: nat)

  /** The block the thread writes next. */
  function Target(g: M.Geometry, s: State): Option<nat> {
    match s.pc
    case Logging(t) => Some(if t < |s.lh| then g.logStart + 1 + t else g.logStart)
    case Installing(t) => Some(if t < |s.lh| then s.lh[t] else g.logStart)
    case Recovering(t) => Some(if t < |s.lh| then s.lh[t] else g.logStart)
    case _ => None
  }

  /** The block it copies from; None when it writes the header. */
  function Source(g: M.Geometry, s: State): Option<nat> {
    match s.pc
    case Logging(t) => if t < |s.lh| then Some(s.lh[t]) else None
    case Installing(t) => if t < |s.lh| then Some(g.logStart + 1 + t) else None
    case Recovering(t) => if t < |s.lh| then Some(g.logStart + 1 + t) else None
    case _ => None
  }

  function NewHeader(s: State): seq<nat> { if s.pc.Logging? then s.lh else [] }

  /** Process `p` holds buffer `b` of block `x`, with its data read. */
  predicate Has(s: State, p: nat, b: nat, x: nat) {
    && b < |s.c.bufs| && C.Holds(s.c, p, b) && s.c.bufs[b].key == Some(K(x))
    && s.c.use[b].phase == C.Held
  }

  /** Operation `i` holds buffer `b` of a block of the file system. */
  predicate HoldsHome(g: M.Geometry, s: State, i: nat, b: nat) {
    && i < |s.ops| && b < |s.c.bufs| && C.Holds(s.c, Pid(s.ops[i]), b)
    && s.c.use[b].phase in {C.Held, C.Edited}
    && s.c.bufs[b].key.Some? && s.c.bufs[b].key.value.dev == DEV
    && g.Home(s.c.bufs[b].key.value.blockno)
  }

  predicate Harmless(e: C.Event<M.Block>) { e.Hit? || e.Wait? || e.Recycle? || e.Load? || e.Brelse? }

  ghost predicate Enabled(g: M.Geometry, s: State, e: Event) {
    match e
    case Cache(ce) => Harmless(ce) && C.Enabled(s.c, ce)
    case BeginOp(id) =>
      s.pc == M.Serving && |s.lh| + (|s.ops| + 1) * g.maxOp <= g.logCap && id !in s.seen
    case Modify(i, b, data) => s.pc == M.Serving && HoldsHome(g, s, i, b) && |data| == g.words
    case LogWrite(i, b) => s.pc == M.Serving && HoldsHome(g, s, i, b) && !g.LogFull(|s.lh|)
    case LogWritePanic(i) => s.pc == M.Serving && i < |s.ops| && g.LogFull(|s.lh|)
    case EndOp(i) =>
      && s.pc == M.Serving && i < |s.ops|
      && forall b :: b in s.c.use && s.c.use[b].pid == Pid(s.ops[i]) ==> s.c.use[b].phase != C.Edited
    case Copy(b, from) =>
      && Target(g, s).Some? && Has(s, KERNEL, b, Target(g, s).value)
      && (Source(g, s).Some? ==> Has(s, KERNEL, from, Source(g, s).value))
      && (Source(g, s).None? ==> |NewHeader(s)| < |s.c.bufs[b].data|)
    case Bwrite(b) => b < |s.c.bufs| && C.Holds(s.c, KERNEL, b) && s.c.use[b].phase == C.Edited
    case Stored(b) => C.Enabled(s.c, C.Store(b))
    case FinishCommit => s.pc == M.Erased
    case Crash => true
    case ReadHead(b) => s.pc == M.Booting && Has(s, KERNEL, b, g.logStart) && M.HeaderOk(g, s.c.bufs[b].data)
  }

  /** What Copy puts into buffer `b`. */
  function Copied(g: M.Geometry, s: State, b: nat, from: nat): M.Block
    requires b < |s.c.bufs| && (Source(g, s).Some? ==> from < |s.c.bufs|)
    requires Source(g, s).None? ==> |NewHeader(s)| < |s.c.bufs[b].data|
  {
    if Source(g, s).Some? then s.c.bufs[from].data else M.EncodeHeader(s.c.bufs[b].data, NewHeader(s))
  }

  /** Every buffer is blank after a reboot. */
  function Rebooted(c: C.State<M.Block>): C.State<M.Block> {
    C.State(seq(|c.bufs|, b requires 0 <= b < |c.bufs| => C.Buf(None, false, false, false, c.bufs[b].data)),
            c.disk, map[], {})
  }

  /** The thread goes on to its next block. */
  function Advanced(s: State): State {
    match s.pc
    case Logging(t) =>
      if t < |s.lh| then s.(pc := M.Logging(t + 1))
      else s.(pc := M.Installing(0), committed := s.committed + [s.open], open := [])
    case Installing(t) =>
      if t < |s.lh| then s.(logged := s.logged - {s.lh[t]}, pc := M.Installing(t + 1))
      else s.(lh := [], pc := M.Erased)
    case Recovering(t) =>
      if t < |s.lh| then s.(pc := M.Recovering(t + 1)) else s.(lh := [], pc := M.Serving)
    case _ => s
  }

  ghost function Next(g: M.Geometry, s: State, e: Event): State
    requires Enabled(g, s, e)
  {
    match e
    case Cache(ce) => s.(c := C.Next(s.c, ce))
    case BeginOp(id) => s.(ops := s.ops + [M.Op(id, 0)], seen := s.seen + {id})
    case Modify(i, b, data) =>
      s.(c := C.Next(s.c, C.Edit(Pid(s.ops[i]), s.c.bufs[b].key.value, b, data)))
    case LogWrite(i, b) =>
      var op, x, data := s.ops[i], s.c.bufs[b].key.value.blockno, s.c.bufs[b].data;
      s.(c := C.Next(s.c, C.LogWrite(Pid(op), b)),
         lh := if x in s.lh then s.lh else s.lh + [x],
         ops := if x in s.lh then s.ops else s.ops[i := M.Op(op.id, op.used + 1)],
         logged := s.logged[x := data], open := s.open + [M.Write(op.id, x, data)])
    case LogWritePanic(_) => s.(pc := M.Panicked)
    case EndOp(i) =>
      var ops := s.ops[..i] + s.ops[i + 1..];
      s.(ops := ops,
         pc := if ops != [] then M.Serving else if s.lh != [] then M.Logging(0) else M.Erased)
    case Copy(b, from) =>
      s.(c := C.Next(s.c, C.Edit(KERNEL, K(Target(g, s).value), b, Copied(g, s, b, from))))
    case Bwrite(b) => s.(c := C.Next(s.c, C.Bwrite(KERNEL, b)))
    case Stored(b) => Advanced(s).(c := C.Next(s.c, C.Store(b)))
    case FinishCommit => s.(pc := M.Serving)
    case Crash =>
      s.(c := Rebooted(s.c), lh := [], ops := [], pc := M.Booting, logged := map[], open := [])
    case ReadHead(b) => s.(lh := M.Header(g, s.c.bufs[b].data), pc := M.Recovering(0))
  }

  ghost predicate Feasible(g: M.Geometry, s: State, es: seq<Event>)
    decreases |es|, 0
  {
    es == [] || (Feasible(g, s, es[..|es| - 1])
                 && Enabled(g, After(g, s, es[..|es| - 1]), es[|es| - 1]))
  }

  ghost function After(g: M.Geometry, s: State, es: seq<Event>): State
    requires Feasible(g, s, es)
    decreases |es|, 1
  {
    if es == [] then s else Next(g, After(g, s, es[..|es| - 1]), es[|es| - 1])
  }

  /** Power-on over any disk, with `n` buffers. */
  ghost predicate Boot(g: M.Geometry, s: State) {
    && C.Boot(s.c) && OnDisk(g, s.c)
    && s.lh == [] && s.ops == [] && s.pc == M.Booting && s.logged == map[]
    && s.committed == [] && s.open == [] && s.seen == {}
  }

  // ---------------------------------------------------------------- the machine it stands for

  ghost predicate OnDisk(g: M.Geometry, c: C.State<M.Block>) {
    forall x: nat :: x < g.nblocks ==> K(x) in c.disk
  }

  /** The disk's blocks, as LogMachine has them. */
  ghost function Disk(g: M.Geometry, c: C.State<M.Block>): (d: seq<M.Block>)
    requires OnDisk(g, c)
    ensures |d| == g.nblocks && forall x :: 0 <= x < g.nblocks ==> d[x] == c.disk[K(x)]
  {
    seq(g.nblocks, x requires 0 <= x < g.nblocks => c.disk[K(x)])
  }

  ghost function Abs(g: M.Geometry, s: State): M.State
    requires OnDisk(g, s.c)
  {
    M.State(Disk(g, s.c), s.logged, s.lh, s.ops, s.pc, s.committed, s.open, s.seen)
  }

  /** The machine's step, if any. */
  ghost function Step(g: M.Geometry, s: State, e: Event): Option<M.Event>
    requires Enabled(g, s, e)
  {
    match e
    case BeginOp(id) => Some(M.BeginOp(id))
    case LogWrite(i, b) => Some(M.LogWrite(i, s.c.bufs[b].key.value.blockno, s.c.bufs[b].data))
    case LogWritePanic(i) => Some(M.LogWritePanic(i))
    case EndOp(i) => Some(M.EndOp(i))
    case Stored(_) => StoreStep(s)
    case FinishCommit => Some(M.FinishCommit)
    case Crash => Some(M.Crash)
    case ReadHead(_) => Some(M.ReadHead)
    case _ => None
  }

  function StoreStep(s: State): Option<M.Event> {
    match s.pc
    case Logging(t) => Some(if t < |s.lh| then M.WriteLogBlock else M.WriteHead)
    case Installing(t) => Some(if t < |s.lh| then M.InstallBlock else M.EraseHead)
    case Recovering(t) => Some(if t < |s.lh| then M.RecoverBlock else M.RecoverErase)
    case _ => None
  }

  // ---------------------------------------------------------------- the invariant

  /** What the machine writes to the target block. */
  ghost predicate IsImage(g: M.Geometry, s: State, d: seq<M.Block>, data: M.Block) {
    match s.pc
    case Logging(t) =>
      if t < |s.lh| then s.lh[t] in s.logged && data == s.logged[s.lh[t]]
      else g.logStart < |d| && |s.lh| < |d[g.logStart]| && data == M.EncodeHeader(d[g.logStart], s.lh)
    case Installing(t) => IsInstall(g, s.lh, t, d, data)
    case Recovering(t) => IsInstall(g, s.lh, t, d, data)
    case _ => false
  }

  ghost predicate IsInstall(g: M.Geometry, lh: seq<nat>, t: nat, d: seq<M.Block>, data: M.Block) {
    if t < |lh| then g.logStart + 1 + t < |d| && data == d[g.logStart + 1 + t]
    else g.logStart < |d| && 0 < |d[g.logStart]| && data == M.EncodeHeader(d[g.logStart], [])
  }

  /** Buffer `b` was changed, and the change is neither logged nor on disk. */
  predicate Owes(c: C.State<M.Block>, b: nat) {
    b in c.use && (c.use[b].phase == C.Edited || c.use[b].phase == C.Storing)
  }

  predicate Outstanding(s: State, p: nat) { exists i :: 0 <= i < |s.ops| && Pid(s.ops[i]) == p }

  /** It is an operation's change to a block of the file system, or the copy the thread is about to store. */
  ghost predicate DebtOk(g: M.Geometry, s: State, b: nat, x: nat)
    requires b < |s.c.bufs| && OnDisk(g, s.c) && b in s.c.use
  {
    || ((s.pc == M.Serving || s.pc == M.Panicked) && s.c.use[b].phase == C.Edited && g.Home(x)
        && Outstanding(s, s.c.use[b].pid))
    || (s.c.use[b].pid == KERNEL && Target(g, s) == Some(x) && IsImage(g, s, Disk(g, s.c), s.c.bufs[b].data))
  }

  ghost predicate BufOk(g: M.Geometry, s: State, b: nat)
    requires b < |s.c.bufs| && OnDisk(g, s.c)
  {
    var f := s.c.bufs[b];
    && (Owes(s.c, b) ==> f.key.Some? && f.key.value.dev == DEV && f.key.value.blockno < g.nblocks
                         && DebtOk(g, s, b, f.key.value.blockno))
    && (f.key.Some? && f.key.value.dev == DEV && f.key.value.blockno < g.nblocks && f.valid ==>
          && |f.data| == g.words
          && (f.key.value.blockno in s.logged && !Owes(s.c, b) ==> f.data == s.logged[f.key.value.blockno]))
  }

  ghost predicate PinsOk(g: M.Geometry, s: State) {
    && (forall k :: k in s.c.pinned <==> k.dev == DEV && k.blockno in s.logged)
    && (forall x :: x in s.logged ==> g.Home(x))
  }

  ghost predicate Inv(g: M.Geometry, base: seq<M.Block>, s: State) {
    && g.Ok() && C.Inv(s.c) && OnDisk(g, s.c) && M.Inv(g, base, Abs(g, s)) && PinsOk(g, s)
    && (forall b :: 0 <= b < |s.c.bufs| ==> BufOk(g, s, b))
  }

  // ---------------------------------------------------------------- what the invariant gives

  lemma Shape(g: M.Geometry, base: seq<M.Block>, m: M.State)
    requires M.Inv(g, base, m)
    ensures g.DiskShape(m.disk) && g.logCap + 1 < g.words
  {
    hide M.PhaseOk, M.GroupsOk, M.Redo, M.HeaderOk;
  }

  lemma SameDisk(g: M.Geometry, c: C.State<M.Block>, c': C.State<M.Block>)
    requires OnDisk(g, c) && c'.disk == c.disk
    ensures OnDisk(g, c') && Disk(g, c') == Disk(g, c)
  {
  }

  /** A buffer that is held, loaded and owes nothing shows what was logged, or else the disk. */
  lemma CleanCopy(g: M.Geometry, base: seq<M.Block>, s: State, b: nat, x: nat)
    requires Inv(g, base, s) && b < |s.c.bufs| && s.c.bufs[b].key == Some(K(x)) && x < g.nblocks
    requires s.c.bufs[b].valid && !Owes(s.c, b)
    ensures s.c.bufs[b].data == (if x in s.logged then s.logged[x] else s.c.disk[K(x)])
    ensures |s.c.bufs[b].data| == g.words
  {
    hide M.Inv;
    assert C.BufOk(s.c, b) && BufOk(g, s, b);
  }

  lemma HeldIsValid(g: M.Geometry, base: seq<M.Block>, s: State, b: nat)
    requires Inv(g, base, s) && b in s.c.use && s.c.use[b].phase != C.Loading
    ensures b < |s.c.bufs| && s.c.bufs[b].valid && s.c.bufs[b].key.Some?
  {
    hide M.Inv;
    assert C.BufOk(s.c, b);
  }

  /** While the thread is at work, only the buffer of its target block owes anything. */
  lemma OneDebt(g: M.Geometry, base: seq<M.Block>, s: State, b: nat)
    requires Inv(g, base, s) && b < |s.c.bufs| && Owes(s.c, b)
    requires s.c.use[b].phase == C.Storing || s.c.use[b].pid == KERNEL || (s.pc != M.Serving && s.pc != M.Panicked)
    ensures s.c.use[b].pid == KERNEL && Target(g, s).Some? && s.c.bufs[b].key == Some(K(Target(g, s).value))
    ensures Target(g, s).value < g.nblocks && IsImage(g, s, Disk(g, s.c), s.c.bufs[b].data)
  {
    hide M.Inv, IsImage, C.Inv;
    assert BufOk(g, s, b);
  }

  // ---------------------------------------------------------------- steps

  ghost predicate Keeps(g: M.Geometry, base: seq<M.Block>, s: State, s': State)
    requires OnDisk(g, s.c)
  {
    Inv(g, base, s') && Abs(g, s') == Abs(g, s)
  }

  ghost predicate Takes(g: M.Geometry, base: seq<M.Block>, s: State, s': State, me: M.Event)
    requires OnDisk(g, s.c)
  {
    Inv(g, base, s') && M.Enabled(g, Abs(g, s), me) && Abs(g, s') == M.Next(g, Abs(g, s), me)
  }

  /** The debt of a buffer that a step does not touch. */
  lemma DebtFrame(g: M.Geometry, s: State, c': C.State<M.Block>, b: nat)
    requires OnDisk(g, s.c) && c'.disk == s.c.disk && b < |s.c.bufs| && |c'.bufs| == |s.c.bufs|
    requires c'.bufs[b] == s.c.bufs[b] && (b in c'.use <==> b in s.c.use) && (b in s.c.use ==> c'.use[b] == s.c.use[b])
    requires BufOk(g, s, b)
    ensures OnDisk(g, c') && BufOk(g, s.(c := c'), b)
  {
    SameDisk(g, s.c, c');
    hide IsImage, Disk;
  }

  lemma CacheStep(g: M.Geometry, base: seq<M.Block>, s: State, ce: C.Event<M.Block>)
    requires Inv(g, base, s) && Harmless(ce) && C.Enabled(s.c, ce)
    ensures Keeps(g, base, s, s.(c := C.Next(s.c, ce)))
  {
    hide M.Inv, BufOk;
    var c' := C.Next(s.c, ce);
    C.StepKeeps(s.c, ce);
    Harmlessly(s.c, ce);
    SameDisk(g, s.c, c');
    forall b | 0 <= b < |c'.bufs| ensures BufOk(g, s.(c := c'), b) {
      if ce.Wait? || b != ce.b {
        DebtFrame(g, s, c', b);
      } else {
        CacheBuf(g, base, s, ce);
      }
    }
  }

  lemma Harmlessly(c: C.State<M.Block>, ce: C.Event<M.Block>)
    requires Harmless(ce) && C.Enabled(c, ce)
    ensures var c' := C.Next(c, ce);
            && c'.disk == c.disk && c'.pinned == c.pinned && |c'.bufs| == |c.bufs|
            && forall b :: 0 <= b < |c.bufs| && (ce.Wait? || b != ce.b) ==>
                 c'.bufs[b] == c.bufs[b] && (b in c'.use <==> b in c.use) && (b in c.use ==> c'.use[b] == c.use[b])
  {
  }

  /** The buffer that was got, loaded or released. */
  lemma CacheBuf(g: M.Geometry, base: seq<M.Block>, s: State, ce: C.Event<M.Block>)
    requires Inv(g, base, s) && Harmless(ce) && C.Enabled(s.c, ce) && !ce.Wait?
    requires var c' := C.Next(s.c, ce); OnDisk(g, c') && |c'.bufs| == |s.c.bufs| && Disk(g, c') == Disk(g, s.c)
    ensures BufOk(g, s.(c := C.Next(s.c, ce)), ce.b)
  {
    hide M.Inv, DebtOk, C.Unique;
    Shape(g, base, Abs(g, s));
    var b := ce.b;
    assert C.BufOk(s.c, b) && BufOk(g, s, b);
    assert s.c.bufs[b].key.Some? && s.c.bufs[b].key.value.dev == DEV && s.c.bufs[b].key.value.blockno < g.nblocks ==>
             Disk(g, s.c)[s.c.bufs[b].key.value.blockno] == s.c.disk[s.c.bufs[b].key.value];
  }

  lemma ModifyStep(g: M.Geometry, base: seq<M.Block>, s: State, i: nat, b: nat, data: M.Block)
    requires Inv(g, base, s) && Enabled(g, s, Modify(i, b, data))
    ensures Keeps(g, base, s, Next(g, s, Modify(i, b, data)))
  {
    hide M.Inv;
    var ce := C.Edit(Pid(s.ops[i]), s.c.bufs[b].key.value, b, data);
    var s' := Next(g, s, Modify(i, b, data));
    assert C.Enabled(s.c, ce);
    C.StepKeeps(s.c, ce);
    SameDisk(g, s.c, s'.c);
    hide IsImage, Disk, C.Inv;
    forall a | 0 <= a < |s'.c.bufs| ensures BufOk(g, s', a) {
      assert BufOk(g, s, a);
      if a != b {
        DebtFrame(g, s, s'.c, a);
      } else {
        assert Outstanding(s', Pid(s.ops[i]));
      }
    }
  }

  lemma LogWriteStep(g: M.Geometry, base: seq<M.Block>, s: State, i: nat, b: nat)
    requires Inv(g, base, s) && Enabled(g, s, LogWrite(i, b))
    ensures Takes(g, base, s, Next(g, s, LogWrite(i, b)), Step(g, s, LogWrite(i, b)).value)
  {
    hide M.Inv, IsImage;
    var ce: C.Event<M.Block> := C.LogWrite(Pid(s.ops[i]), b);
    var me := Step(g, s, LogWrite(i, b)).value;
    var s' := Next(g, s, LogWrite(i, b));
    HeldIsValid(g, base, s, b);
    assert BufOk(g, s, b);
    C.StepKeeps(s.c, ce);
    SameDisk(g, s.c, s'.c);
    assert Abs(g, s') == M.Next(g, Abs(g, s), me);
    M.StepKeeps(g, base, Abs(g, s), me);
    forall a | 0 <= a < |s'.c.bufs| ensures BufOk(g, s', a) {
      assert BufOk(g, s, a);
      if a != b { LoggedOther(g, base, s, i, b, a); }
    }
  }

  /** Another buffer holds another block, and its operation is still outstanding. */
  lemma LoggedOther(g: M.Geometry, base: seq<M.Block>, s: State, i: nat, b: nat, a: nat)
    requires Inv(g, base, s) && Enabled(g, s, LogWrite(i, b)) && a < |s.c.bufs| && a != b
    requires var s' := Next(g, s, LogWrite(i, b)); OnDisk(g, s'.c) && |s'.c.bufs| == |s.c.bufs|
    ensures BufOk(g, Next(g, s, LogWrite(i, b)), a)
  {
    hide M.Inv, IsImage, Disk;
    var s' := Next(g, s, LogWrite(i, b));
    assert BufOk(g, s, a);
    assert s.c.bufs[a].key.Some? ==> s.c.bufs[a].key != s.c.bufs[b].key by { assert C.Unique(s.c.bufs); }
    if Owes(s.c, a) {
      var j :| 0 <= j < |s.ops| && Pid(s.ops[j]) == s.c.use[a].pid;
      assert Pid(s'.ops[j]) == s.c.use[a].pid;
    }
  }

  lemma BeginStep(g: M.Geometry, base: seq<M.Block>, s: State, id: nat)
    requires Inv(g, base, s) && Enabled(g, s, BeginOp(id))
    ensures Takes(g, base, s, Next(g, s, BeginOp(id)), M.BeginOp(id))
  {
    hide M.Inv, IsImage;
    var s' := Next(g, s, BeginOp(id));
    Steps.BeginOpStep(g, base, Abs(g, s), id);
    M.StepKeeps(g, base, Abs(g, s), M.BeginOp(id));
    forall a | 0 <= a < |s'.c.bufs| ensures BufOk(g, s', a) {
      assert BufOk(g, s, a);
      if Owes(s.c, a) {
        var j :| 0 <= j < |s.ops| && Pid(s.ops[j]) == s.c.use[a].pid;
        assert Pid(s'.ops[j]) == s.c.use[a].pid;
      }
    }
  }

  lemma PanicStep(g: M.Geometry, base: seq<M.Block>, s: State, i: nat)
    requires Inv(g, base, s) && Enabled(g, s, LogWritePanic(i))
    ensures Takes(g, base, s, Next(g, s, LogWritePanic(i)), M.LogWritePanic(i))
  {
    hide M.Inv, IsImage;
    var s' := Next(g, s, LogWritePanic(i));
    Steps.PanicStep(g, Abs(g, s), i);
    M.StepKeeps(g, base, Abs(g, s), M.LogWritePanic(i));
    forall a | 0 <= a < |s'.c.bufs| ensures BufOk(g, s', a) {
      assert BufOk(g, s, a);
    }
  }

  lemma EndStep(g: M.Geometry, base: seq<M.Block>, s: State, i: nat)
    requires Inv(g, base, s) && Enabled(g, s, EndOp(i))
    ensures Takes(g, base, s, Next(g, s, EndOp(i)), M.EndOp(i))
  {
    hide M.Inv, M.Enabled, M.Next, C.Inv, BufOk, Disk;
    var s' := Next(g, s, EndOp(i));
    Steps.EndOpStep(g, Abs(g, s), i);
    M.StepKeeps(g, base, Abs(g, s), M.EndOp(i));
    forall a | 0 <= a < |s'.c.bufs| ensures BufOk(g, s', a) {
      EndedOther(g, s, i, a);
    }
  }

  /** A change that is still owed belongs to another operation, which is still outstanding. */
  lemma EndedOther(g: M.Geometry, s: State, i: nat, a: nat)
    requires OnDisk(g, s.c) && Enabled(g, s, EndOp(i)) && a < |s.c.bufs| && BufOk(g, s, a)
    ensures BufOk(g, Next(g, s, EndOp(i)), a)
  {
    hide IsImage, Disk;
    if Owes(s.c, a) {
      assert !IsImage(g, s, Disk(g, s.c), s.c.bufs[a].data) by { ServingHasNoImage(g, s); }
      var ops := s.ops[..i] + s.ops[i + 1..];
      var j :| 0 <= j < |s.ops| && Pid(s.ops[j]) == s.c.use[a].pid;
      assert j != i;
      assert ops[if j < i then j else j - 1] == s.ops[j];
    }
  }

  lemma ServingHasNoImage(g: M.Geometry, s: State)
    requires s.pc == M.Serving
    ensures forall d, data :: !IsImage(g, s, d, data)
  {
  }

  /** The facts about the machine's phase that the thread's steps need. */
  lemma PhaseFacts(g: M.Geometry, base: seq<M.Block>, m: M.State)
    requires M.Inv(g, base, m)
    ensures m.pc.Logging? || m.pc.Installing? || m.pc.Recovering? ==> m.pc.tail <= |m.lh| && |m.lh| + 1 < g.words
    ensures m.pc.Logging? ==> forall t :: 0 <= t < |m.lh| ==> m.lh[t] in m.dirty
    ensures m.pc.Logging? || m.pc.Installing? || m.pc.Recovering? ==>
              |m.lh| < g.logSize && forall t :: 0 <= t < |m.lh| ==> g.Home(m.lh[t])
    ensures m.pc.Recovering? || m.pc.Booting? ==> m.dirty == map[]
  {
    hide M.GroupsOk, M.ApplyGroups, M.Apply, M.Redo;
    if m.pc.Logging? {
      forall t | 0 <= t < |m.lh| ensures m.lh[t] in m.dirty { assert m.lh[t] in M.Elems(m.lh); }
    }
  }

  /** A held block of the log area shows the disk. */
  lemma LogBlockCopy(g: M.Geometry, base: seq<M.Block>, s: State, b: nat, x: nat)
    requires Inv(g, base, s) && Has(s, KERNEL, b, x) && g.InLog(x) && x < g.nblocks
    ensures s.c.bufs[b].data == Disk(g, s.c)[x] && |s.c.bufs[b].data| == g.words
  {
    hide M.Inv, C.Inv, BufOk;
    HeldIsValid(g, base, s, b);
    CleanCopy(g, base, s, b, x);
  }

  /** What the thread copies is what the machine writes. */
  lemma CopyIsImage(g: M.Geometry, base: seq<M.Block>, s: State, b: nat, from: nat)
    requires Inv(g, base, s) && Enabled(g, s, Copy(b, from))
    ensures Target(g, s).value < g.nblocks && |Copied(g, s, b, from)| == g.words
    ensures IsImage(g, s, Disk(g, s.c), Copied(g, s, b, from))
  {
    hide M.Inv, C.Inv, BufOk;
    PhaseFacts(g, base, Abs(g, s));
    Shape(g, base, Abs(g, s));
    if Source(g, s).None? {
      LogBlockCopy(g, base, s, b, g.logStart);
    } else if s.pc.Logging? {
      HeldIsValid(g, base, s, from);
      CleanCopy(g, base, s, from, s.lh[s.pc.tail]);
    } else {
      LogBlockCopy(g, base, s, from, g.logStart + 1 + s.pc.tail);
    }
  }

  lemma CopyStep(g: M.Geometry, base: seq<M.Block>, s: State, b: nat, from: nat)
    requires Inv(g, base, s) && Enabled(g, s, Copy(b, from))
    ensures Keeps(g, base, s, Next(g, s, Copy(b, from)))
  {
    hide M.Inv, IsImage, Copied;
    CopyIsImage(g, base, s, b, from);
    var s' := Next(g, s, Copy(b, from));
    C.StepKeeps(s.c, C.Edit(KERNEL, K(Target(g, s).value), b, Copied(g, s, b, from)));
    SameDisk(g, s.c, s'.c);
    SameTarget(g, s, s'.c);
    hide Target, Disk;
    forall a | 0 <= a < |s'.c.bufs| ensures BufOk(g, s', a) {
      assert BufOk(g, s, a);
      if a != b { DebtFrame(g, s, s'.c, a); }
    }
  }

  lemma SameTarget(g: M.Geometry, s: State, c': C.State<M.Block>)
    ensures Target(g, s.(c := c')) == Target(g, s)
    ensures forall d, data :: IsImage(g, s.(c := c'), d, data) <==> IsImage(g, s, d, data)
  {
  }

  lemma BwriteStep(g: M.Geometry, base: seq<M.Block>, s: State, b: nat)
    requires Inv(g, base, s) && Enabled(g, s, Bwrite(b))
    ensures Keeps(g, base, s, Next(g, s, Bwrite(b)))
  {
    hide M.Inv, IsImage, Target;
    var s' := Next(g, s, Bwrite(b));
    C.StepKeeps(s.c, C.Bwrite(KERNEL, b));
    SameDisk(g, s.c, s'.c);
    SameTarget(g, s, s'.c);
    OneDebt(g, base, s, b);
    hide Disk;
    forall a | 0 <= a < |s'.c.bufs| ensures BufOk(g, s', a) {
      assert BufOk(g, s, a);
      if a != b { DebtFrame(g, s, s'.c, a); }
    }
  }

  /** The disk and the pins after the thread's block is stored. */
  lemma StoreEffect(g: M.Geometry, base: seq<M.Block>, s: State, b: nat)
    requires Inv(g, base, s) && C.Enabled(s.c, C.Store(b))
    ensures Target(g, s).Some? && Target(g, s).value < g.nblocks && b < |s.c.bufs|
    ensures IsImage(g, s, Disk(g, s.c), s.c.bufs[b].data) && |s.c.bufs[b].data| == g.words
    ensures var x, c' := Target(g, s).value, C.Next(s.c, C.Store(b));
            && s.c.bufs[b].key == Some(K(x)) && OnDisk(g, c')
            && Disk(g, c') == Disk(g, s.c)[x := s.c.bufs[b].data] && c'.pinned == s.c.pinned - {K(x)}
            && C.Inv(c') && |c'.bufs| == |s.c.bufs|
  {
    hide M.Inv, IsImage, Target;
    assert BufOk(g, s, b);
    OneDebt(g, base, s, b);
    HeldIsValid(g, base, s, b);
    C.StepKeeps(s.c, C.Store(b));
    assert OnDisk(g, C.Next(s.c, C.Store(b)));
  }

  /** And then no buffer owes anything. */
  lemma AllPaid(g: M.Geometry, base: seq<M.Block>, s: State, b: nat, a: nat)
    requires Inv(g, base, s) && C.Enabled(s.c, C.Store(b)) && a < |s.c.bufs|
    ensures !Owes(C.Next(s.c, C.Store(b)), a)
    ensures a != b ==> !Owes(s.c, a)
  {
    hide M.Inv, IsImage, BufOk;
    OneDebt(g, base, s, b);
    if a != b && Owes(s.c, a) {
      OneDebt(g, base, s, a);
      assert false;
    }
  }

  lemma StoredStep(g: M.Geometry, base: seq<M.Block>, s: State, b: nat)
    requires Inv(g, base, s) && Enabled(g, s, Stored(b))
    ensures StoreStep(s).Some? && Takes(g, base, s, Next(g, s, Stored(b)), StoreStep(s).value)
  {
    hide M.Inv, C.Inv, BufOk, DebtOk, IsImage;
    var s' := Next(g, s, Stored(b));
    StoreEffect(g, base, s, b);
    StoreIsMachine(g, base, s, b);
    var me := StoreStep(s).value;
    M.StepKeeps(g, base, Abs(g, s), me);
    PinsStored(g, base, s, b);
    forall a | 0 <= a < |s'.c.bufs| ensures BufOk(g, s', a) {
      AllPaid(g, base, s, b, a);
      StoredBuf(g, base, s, b, a);
    }
  }

  lemma PinsStored(g: M.Geometry, base: seq<M.Block>, s: State, b: nat)
    requires Inv(g, base, s) && Enabled(g, s, Stored(b)) && Target(g, s).Some?
    requires C.Next(s.c, C.Store(b)).pinned == s.c.pinned - {K(Target(g, s).value)}
    ensures PinsOk(g, Next(g, s, Stored(b)))
  {
    hide M.Inv, C.Inv, BufOk;
    PhaseFacts(g, base, Abs(g, s));
  }

  lemma StoredBuf(g: M.Geometry, base: seq<M.Block>, s: State, b: nat, a: nat)
    requires Inv(g, base, s) && Enabled(g, s, Stored(b)) && a < |s.c.bufs|
    requires var c' := C.Next(s.c, C.Store(b)); OnDisk(g, c') && |c'.bufs| == |s.c.bufs| && !Owes(c', a)
    requires a != b ==> !Owes(s.c, a)
    requires b < |s.c.bufs| && Target(g, s).Some?
    requires s.c.bufs[b].key == Some(K(Target(g, s).value)) && |s.c.bufs[b].data| == g.words
    ensures BufOk(g, Next(g, s, Stored(b)), a)
  {
    hide M.Inv, C.Inv, DebtOk, IsImage;
    assert BufOk(g, s, a);
    if a == b { PhaseFacts(g, base, Abs(g, s)); }
  }

  ghost predicate IsStore(g: M.Geometry, s: State, b: nat) {
    && OnDisk(g, s.c) && C.Enabled(s.c, C.Store(b)) && b < |s.c.bufs|
    && Target(g, s).Some? && Target(g, s).value < g.nblocks
    && var c' := C.Next(s.c, C.Store(b));
    OnDisk(g, c') && Disk(g, c') == Disk(g, s.c)[Target(g, s).value := s.c.bufs[b].data]
  }

  /** Each store is one disk write of the machine. */
  lemma StoreIsMachine(g: M.Geometry, base: seq<M.Block>, s: State, b: nat)
    requires Inv(g, base, s) && IsStore(g, s, b) && IsImage(g, s, Disk(g, s.c), s.c.bufs[b].data)
    ensures StoreStep(s).Some? && M.Enabled(g, Abs(g, s), StoreStep(s).value)
    ensures Abs(g, Advanced(s).(c := C.Next(s.c, C.Store(b)))) == M.Next(g, Abs(g, s), StoreStep(s).value)
  {
    hide M.Inv, C.Inv, BufOk, PinsOk, M.Enabled, M.Next, Disk, C.Enabled, C.Next, Abs;
    if s.pc.Logging? {
      LoggingStore(g, base, s, b);
    } else {
      InstallStore(g, base, s, b);
    }
  }

  lemma LoggingStore(g: M.Geometry, base: seq<M.Block>, s: State, b: nat)
    requires Inv(g, base, s) && IsStore(g, s, b) && IsImage(g, s, Disk(g, s.c), s.c.bufs[b].data) && s.pc.Logging?
    ensures M.Enabled(g, Abs(g, s), StoreStep(s).value)
    ensures Abs(g, Advanced(s).(c := C.Next(s.c, C.Store(b)))) == M.Next(g, Abs(g, s), StoreStep(s).value)
  {
    hide M.Inv, C.Inv, BufOk, PinsOk, M.Enabled, M.Next, Disk, C.Enabled, C.Next;
    PhaseFacts(g, base, Abs(g, s));
    if s.pc.tail < |s.lh| {
      Steps.LoggingReady(g, base, Abs(g, s));
    } else {
      Steps.CommitHeadEffect(g, base, Abs(g, s));
    }
  }

  lemma InstallStore(g: M.Geometry, base: seq<M.Block>, s: State, b: nat)
    requires Inv(g, base, s) && IsStore(g, s, b) && IsImage(g, s, Disk(g, s.c), s.c.bufs[b].data)
    requires s.pc.Installing? || s.pc.Recovering?
    ensures M.Enabled(g, Abs(g, s), StoreStep(s).value)
    ensures Abs(g, Advanced(s).(c := C.Next(s.c, C.Store(b)))) == M.Next(g, Abs(g, s), StoreStep(s).value)
  {
    hide M.Inv, C.Inv, BufOk, PinsOk, M.Enabled, M.Next, Disk, C.Enabled, C.Next;
    PhaseFacts(g, base, Abs(g, s));
    if s.pc.tail < |s.lh| {
      Steps.InstallReady(g, base, Abs(g, s), StoreStep(s).value);
      if s.pc.Recovering? { assert s.logged - {s.lh[s.pc.tail]} == s.logged; }
    } else {
      Steps.EraseEffect(g, base, Abs(g, s));
    }
  }

  lemma FinishStep(g: M.Geometry, base: seq<M.Block>, s: State)
    requires Inv(g, base, s) && s.pc == M.Erased
    ensures Takes(g, base, s, s.(pc := M.Serving), M.FinishCommit)
  {
    hide M.Inv, IsImage;
    var s' := s.(pc := M.Serving);
    Steps.FinishStep(g, base, Abs(g, s));
    M.StepKeeps(g, base, Abs(g, s), M.FinishCommit);
    forall a | 0 <= a < |s'.c.bufs| ensures BufOk(g, s', a) {
      assert BufOk(g, s, a);
    }
  }

  lemma CrashStep(g: M.Geometry, base: seq<M.Block>, s: State)
    requires Inv(g, base, s)
    ensures Takes(g, base, s, Next(g, s, Crash), M.Crash)
  {
    hide M.Inv;
    var s' := Next(g, s, Crash);
    C.BootInv(s'.c);
    SameDisk(g, s.c, s'.c);
    Steps.CrashStep(g, Abs(g, s));
    M.StepKeeps(g, base, Abs(g, s), M.Crash);
  }

  lemma ReadHeadStep(g: M.Geometry, base: seq<M.Block>, s: State, b: nat)
    requires Inv(g, base, s) && Enabled(g, s, ReadHead(b))
    ensures Takes(g, base, s, Next(g, s, ReadHead(b)), M.ReadHead)
  {
    hide M.Inv, IsImage;
    var s' := Next(g, s, ReadHead(b));
    Shape(g, base, Abs(g, s));
    LogBlockCopy(g, base, s, b, g.logStart);
    Steps.BootStep(g, base, Abs(g, s));
    M.StepKeeps(g, base, Abs(g, s), M.ReadHead);
    forall a | 0 <= a < |s'.c.bufs| ensures BufOk(g, s', a) {
      assert BufOk(g, s, a);
    }
  }

  /** The sizes and the header that Copy and ReadHead rely on are always right: a thread that holds the
      buffers it needs can go on. */
  lemma ThreadCanGoOn(g: M.Geometry, base: seq<M.Block>, s: State, b: nat, from: nat)
    requires Inv(g, base, s)
    ensures s.pc == M.Booting && Has(s, KERNEL, b, g.logStart) ==> Enabled(g, s, ReadHead(b))
    ensures Target(g, s).Some? && Has(s, KERNEL, b, Target(g, s).value)
              && (Source(g, s).Some? ==> Has(s, KERNEL, from, Source(g, s).value))
            ==> Enabled(g, s, Copy(b, from))
  {
    hide M.Inv, C.Inv, BufOk, M.HeaderOk;
    Shape(g, base, Abs(g, s));
    PhaseFacts(g, base, Abs(g, s));
    if s.pc == M.Booting && Has(s, KERNEL, b, g.logStart) {
      LogBlockCopy(g, base, s, b, g.logStart);
      Steps.BootStep(g, base, Abs(g, s));
    }
    if Target(g, s).Some? && Source(g, s).None? && Has(s, KERNEL, b, g.logStart) {
      LogBlockCopy(g, base, s, b, g.logStart);
    }
  }

  /** Every step is one step of the log's machine, or none. */
  lemma StepRefines(g: M.Geometry, base: seq<M.Block>, s: State, e: Event)
    requires Inv(g, base, s) && Enabled(g, s, e)
    ensures Inv(g, base, Next(g, s, e))
    ensures Step(g, s, e).None? ==> Abs(g, Next(g, s, e)) == Abs(g, s)
    ensures Step(g, s, e).Some? ==>
              M.Enabled(g, Abs(g, s), Step(g, s, e).value)
              && Abs(g, Next(g, s, e)) == M.Next(g, Abs(g, s), Step(g, s, e).value)
  {
    hide C.Enabled, C.Next, M.Enabled, M.Next, M.Inv, C.Inv, BufOk, PinsOk;
    match e
    case Cache(ce) => CacheStep(g, base, s, ce);
    case BeginOp(id) => BeginStep(g, base, s, id);
    case Modify(i, b, data) => ModifyStep(g, base, s, i, b, data);
    case LogWrite(i, b) => LogWriteStep(g, base, s, i, b);
    case LogWritePanic(i) => PanicStep(g, base, s, i);
    case EndOp(i) => EndStep(g, base, s, i);
    case Copy(b, from) => CopyStep(g, base, s, b, from);
    case Bwrite(b) => BwriteStep(g, base, s, b);
    case Stored(b) => StoredStep(g, base, s, b);
    case FinishCommit => FinishStep(g, base, s);
    case Crash => CrashStep(g, base, s);
    case ReadHead(b) => ReadHeadStep(g, base, s, b);
  }

  // ---------------------------------------------------------------- whole runs

  /** The machine's run that a run of the stack stands for. */
  ghost function Trace(g: M.Geometry, s: State, es: seq<Event>): seq<M.Event>
    requires Feasible(g, s, es)
  {
    if es == [] then []
    else
      var tr := Trace(g, s, es[..|es| - 1]);
      match Step(g, After(g, s, es[..|es| - 1]), es[|es| - 1])
      case Some(me) => tr + [me]
      case None => tr
  }

  lemma BootInv(g: M.Geometry, base: seq<M.Block>, s: State)
    requires g.Ok() && Boot(g, s) && M.Durable(g, Disk(g, s.c), base)
    ensures Inv(g, base, s) && Abs(g, s) == M.Boot(Disk(g, s.c))
  {
    hide M.Inv, M.Durable;
    C.BootInv(s.c);
    M.BootInv(g, base, Disk(g, s.c));
    forall b | 0 <= b < |s.c.bufs| ensures BufOk(g, s, b) {
      assert C.Blank(s.c.bufs[b]);
    }
  }

  /** The stack refines the machine. */
  lemma {:induction false} RunRefines(g: M.Geometry, base: seq<M.Block>, s: State, es: seq<Event>)
    requires g.Ok() && Boot(g, s) && M.Durable(g, Disk(g, s.c), base) && Feasible(g, s, es)
    ensures Inv(g, base, After(g, s, es))
    ensures M.Feasible(g, M.Boot(Disk(g, s.c)), Trace(g, s, es))
    ensures Abs(g, After(g, s, es)) == M.After(g, M.Boot(Disk(g, s.c)), Trace(g, s, es))
    decreases |es|
  {
    hide Inv, Enabled, Next, Step, M.Durable, M.Enabled, M.Next, M.After, M.Feasible;
    var boot := M.Boot(Disk(g, s.c));
    if es == [] {
      BootInv(g, base, s);
      MachineStarts(g, boot);
    } else {
      var es0, e := es[..|es| - 1], es[|es| - 1];
      RunRefines(g, base, s, es0);
      var t := After(g, s, es0);
      StepRefines(g, base, t, e);
      if Step(g, t, e).Some? {
        M.AfterSnoc(g, boot, Trace(g, s, es0), Step(g, t, e).value);
      }
    }
  }

  lemma MachineStarts(g: M.Geometry, m: M.State)
    ensures M.Feasible(g, m, []) && M.After(g, m, []) == m
  {
  }

  /** Crash atomicity through the cache: at every point of every run, with crashes anywhere, the disk
      recovers to the first disk with exactly the committed groups applied. */
  lemma CrashAtomicity(g: M.Geometry, base: seq<M.Block>, s: State, es: seq<Event>)
    requires g.Ok() && Boot(g, s) && M.Durable(g, Disk(g, s.c), base) && Feasible(g, s, es)
    ensures var t := After(g, s, es);
            && OnDisk(g, t.c)
            && var d := Disk(g, t.c);
            && g.DiskShape(d) && M.HeaderOk(g, d[g.logStart])
            && M.SameHome(g, M.Recovered(g, d), M.ApplyGroups(base, t.committed))
  {
    hide M.Durable, M.Feasible, M.After, M.Recovered, M.HeaderOk, M.SameHome, Feasible, After;
    RunRefines(g, base, s, es);
    M.CrashAtomicity(g, base, Disk(g, s.c), Trace(g, s, es));
  }

  /** What anybody reads: a held, loaded block that nobody is changing shows every committed group and
      everything the open operations have logged. */
  lemma ReadsSeeEverything(g: M.Geometry, base: seq<M.Block>, s: State, es: seq<Event>, p: nat, b: nat, x: nat)
    requires g.Ok() && Boot(g, s) && M.Durable(g, Disk(g, s.c), base) && Feasible(g, s, es)
    requires After(g, s, es).pc == M.Serving && g.Home(x) && Has(After(g, s, es), p, b, x)
    ensures var t := After(g, s, es);
            x < |base| && t.c.bufs[b].data == M.Apply(M.ApplyGroups(base, t.committed), t.open)[x]
  {
    hide M.Durable, M.Feasible, M.After, Feasible, After, M.ApplyGroups, M.Apply, M.GroupsOk;
    RunRefines(g, base, s, es);
    var t := After(g, s, es);
    HeldIsValid(g, base, t, b);
    CleanCopy(g, base, t, b, x);
    assert M.CacheOk(g, base, Abs(g, t));
  }

  // ---------------------------------------------------------------- the commit finds its buffers

  /** While the thread holds nothing but pinned blocks and nobody else holds any, bread of a log block
      finds a buffer, given one buffer more than header entries; a log area of NBUF blocks at most is
      enough for that. */
  lemma CommitFindsABuffer(g: M.Geometry, base: seq<M.Block>, s: State, es: seq<Event>)
    requires g.Ok() && Boot(g, s) && M.Durable(g, Disk(g, s.c), base) && Feasible(g, s, es)
    requires var t := After(g, s, es);
             && (t.pc.Logging? || t.pc.Installing?) && C.HeldBlocks(t.c) <= t.c.pinned && g.logSize <= |t.c.bufs|
    ensures !C.NoVictim(After(g, s, es).c)
  {
    hide Inv, M.Durable, M.Feasible, M.After, Feasible, After, C.NoVictim, C.HeldBlocks;
    RunRefines(g, base, s, es);
    PinsLeaveRoom(g, base, After(g, s, es));
  }

  lemma PinsLeaveRoom(g: M.Geometry, base: seq<M.Block>, t: State)
    requires Inv(g, base, t) && (t.pc.Logging? || t.pc.Installing?)
    requires C.HeldBlocks(t.c) <= t.c.pinned && g.logSize <= |t.c.bufs|
    ensures !C.NoVictim(t.c)
  {
    hide M.Inv, C.Inv, BufOk, C.HeldBlocks;
    C.CountTaken(t.c, |t.c.bufs|);
    C.TakenAreHeldOrPinned(t.c);
    assert C.HeldBlocks(t.c) + t.c.pinned == t.c.pinned;
    EntriesLogged(g, base, Abs(g, t));
    PinCount(t.c.pinned, t.lh);
    assert |C.TakenBlocks(t.c, |t.c.bufs|)| < |t.c.bufs|;
  }

  lemma EntriesLogged(g: M.Geometry, base: seq<M.Block>, m: M.State)
    requires M.Inv(g, base, m) && (m.pc.Logging? || m.pc.Installing?)
    ensures |m.lh| < g.logSize && forall x :: x in m.dirty ==> x in m.lh
  {
    hide M.GroupsOk, M.ApplyGroups, M.Apply, M.Redo;
    forall x | x in m.dirty ensures x in m.lh {
      assert x in M.Elems(if m.pc.Logging? then m.lh else m.lh[m.pc.tail..]);
    }
  }

  lemma {:induction false} PinCount(pins: set<C.Key>, lh: seq<nat>)
    requires forall k :: k in pins ==> k.dev == DEV && k.blockno in lh
    ensures |pins| <= |lh|
    decreases |lh|
  {
    if lh == [] {
      assert forall k :: k !in pins;
      assert pins == {};
    } else {
      var last := K(lh[|lh| - 1]);
      forall k | k in pins - {last} ensures k.blockno in lh[..|lh| - 1] {
        var i :| 0 <= i < |lh| && lh[i] == k.blockno;
        assert i < |lh| - 1;
      }
      PinCount(pins - {last}, lh[..|lh| - 1]);
      C.Union(pins - {last}, {last});
      C.Subset(pins, (pins - {last}) + {last});
    }
  }

  /** An operation that changes a buffer it holds finds in it what it put there, and no other buffer changes. */
  lemma ModifyStores(g: M.Geometry, s: State, i: nat, b: nat, data: M.Block, q: nat)
    requires Enabled(g, s, Modify(i, b, data)) && q < |s.c.bufs|
    ensures var s' := Next(g, s, Modify(i, b, data));
            && |s'.c.bufs| == |s.c.bufs|
            && s'.c.bufs[q].data == (if q == b then data else s.c.bufs[q].data) && s'.c.bufs[q].key == s.c.bufs[q].key
  {
  }
}
