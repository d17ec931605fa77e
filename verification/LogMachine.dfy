/** The redo log of log.c as a step machine.

    A step is one atomic action of the kernel: one critical section under log.lock, or one
    single-block disk write.  `Crash` may follow any step, including the steps of recovery.
    The history fields `committed`, `open` and `seen` record which operation issued which
    write; nothing depends on them but that a new operation's id is new. */
module LogMachine {

  /** A disk block as its sequence of words. */
  type Block = seq<int>

  /** The constants of param.h, fs.h and the super block. */
  datatype Geometry = Geometry(
    nblocks: nat,    // sb.size
    words: nat,      // BSIZE / sizeof(int)
    logStart: nat,   // sb.logstart
    logSize: nat,    // sb.nlog
    logCap: nat,     // LOGSIZE
    maxOp: nat       // MAXOPBLOCKS
  ) {
    /** The header fits in a block (initlog panics otherwise) and the log lies on the disk. */
    predicate Ok() {
      logCap + 1 < words && 1 <= logSize && logStart + logSize <= nblocks
    }

    predicate InLog(b: nat) { logStart <= b < logStart + logSize }

    /** A block outside the log area. */
    predicate Home(b: nat) { b < nblocks && !InLog(b) }

    /** The guard of log_write's panic "too big a transaction". */
    predicate LogFull(n: nat) { n >= logCap || n >= logSize - 1 }

    predicate DiskShape(d: seq<Block>) {
      |d| == nblocks && forall b :: 0 <= b < |d| ==> |d[b]| == words
    }
  }

  /** A write of `data` to `block` issued by operation `op`. */
  datatype Write = Write(op: nat, block: nat, data: Block)

  type Group = seq<Write>

  /** An operation between begin_op and end_op, and how many header entries it has added. */
  datatype Op = Op(id: nat, used: nat)

  datatype Pc =
    | Serving                   // log.committing == 0
    | Logging(tail: nat)        // write_log
    | Installing(tail: nat)     // install_trans, called from commit
    | Erased                    // commit done, log.committing still 1
    | Booting                   // before read_head
    | Recovering(tail: nat)     // install_trans, called from recover_from_log
    | Panicked

  datatype State = State(
    disk: seq<Block>,
    dirty: map<nat, Block>,     // buffers pinned by log_write and not yet written home
    lh: seq<nat>,               // log.lh.block[..log.lh.n]
    ops: seq<Op>,               // log.outstanding == |ops|
    pc: Pc,
    committed: seq<Group>,
    open: Group,
    seen: set<nat>
  )

  datatype Event =
    | BeginOp(id: nat)
    | LogWrite(i: nat, block: nat, data: Block)
    | LogWritePanic(i: nat)
    | EndOp(i: nat)
    | WriteLogBlock
    | WriteHead
    | InstallBlock
    | EraseHead
    | FinishCommit
    | Crash
    | ReadHead
    | RecoverBlock
    | RecoverErase

  // ---------------------------------------------------------------- on-disk format

  predicate HeaderOk(g: Geometry, b: Block) {
    && |b| == g.words && 0 < |b|
    && 0 <= b[0] <= g.logCap && b[0] < |b| && b[0] < g.logSize
    && forall i :: 1 <= i <= b[0] ==> 0 <= b[i] && g.Home(b[i])
  }

  /** The block numbers recorded in a header block. */
  function Header(g: Geometry, b: Block): (r: seq<nat>)
    requires HeaderOk(g, b)
    ensures |r| == b[0] && forall i :: 0 <= i < |r| ==> r[i] == b[i + 1] && g.Home(r[i])
  {
    seq(b[0], i requires 0 <= i < b[0] => b[i + 1] as nat)
  }

  /** write_head: overwrite the count and the first `|lh|` entries, keep the rest. */
  function EncodeHeader(old_: Block, lh: seq<nat>): (r: Block)
    requires |lh| < |old_|
    ensures |r| == |old_|
  {
    [|lh|] + lh + old_[1 + |lh|..]
  }

  lemma HeaderRoundTrip(g: Geometry, b: Block, lh: seq<nat>)
    requires g.Ok() && |b| == g.words && |lh| <= g.logCap && |lh| < g.logSize
    requires forall i :: 0 <= i < |lh| ==> g.Home(lh[i])
    ensures HeaderOk(g, EncodeHeader(b, lh))
    ensures Header(g, EncodeHeader(b, lh)) == lh
  {
    var r := EncodeHeader(b, lh);
    forall i | 1 <= i <= |lh| ensures r[i] == lh[i - 1] {}
  }

  // ---------------------------------------------------------------- steps

  function BudgetLeft(g: Geometry, ops: seq<Op>): int {
    if ops == [] then 0
    else BudgetLeft(g, ops[..|ops| - 1]) + (g.maxOp - ops[|ops| - 1].used)
  }

  predicate Enabled(g: Geometry, s: State, e: Event) {
    match e
    case BeginOp(id) =>
      // the two waiting conditions of begin_op
      && s.pc == Serving && |s.lh| + (|s.ops| + 1) * g.maxOp <= g.logCap && id !in s.seen
    case LogWrite(i, block, data) =>
      && s.pc == Serving && i < |s.ops| && !g.LogFull(|s.lh|)
      && g.Home(block) && |data| == g.words
    case LogWritePanic(i) => s.pc == Serving && i < |s.ops| && g.LogFull(|s.lh|)
    case EndOp(i) => s.pc == Serving && i < |s.ops|
    case WriteLogBlock =>
      && s.pc.Logging? && s.pc.tail < |s.lh| && s.lh[s.pc.tail] in s.dirty
      && g.logStart + 1 + s.pc.tail < |s.disk|
    case WriteHead =>
      && s.pc.Logging? && s.pc.tail == |s.lh|
      && g.logStart < |s.disk| && |s.lh| < |s.disk[g.logStart]|
    case InstallBlock =>
      && s.pc.Installing? && s.pc.tail < |s.lh|
      && g.logStart + 1 + s.pc.tail < |s.disk| && s.lh[s.pc.tail] < |s.disk|
    case EraseHead =>
      && s.pc.Installing? && s.pc.tail == |s.lh|
      && g.logStart < |s.disk| && 0 < |s.disk[g.logStart]|
    case FinishCommit => s.pc == Erased
    case Crash => true
    case ReadHead => s.pc == Booting && g.logStart < |s.disk| && HeaderOk(g, s.disk[g.logStart])
    case RecoverBlock =>
      && s.pc.Recovering? && s.pc.tail < |s.lh|
      && g.logStart + 1 + s.pc.tail < |s.disk| && s.lh[s.pc.tail] < |s.disk|
    case RecoverErase =>
      && s.pc.Recovering? && s.pc.tail == |s.lh|
      && g.logStart < |s.disk| && 0 < |s.disk[g.logStart]|
  }

  function Next(g: Geometry, s: State, e: Event): State
    requires Enabled(g, s, e)
  {
    match e
    case BeginOp(id) => s.(ops := s.ops + [Op(id, 0)], seen := s.seen + {id})
    case LogWrite(i, block, data) =>
      var op := s.ops[i];
      var s1 := s.(dirty := s.dirty[block := data], open := s.open + [Write(op.id, block, data)]);
      if block in s.lh then s1   // log absorption
      else s1.(lh := s.lh + [block], ops := s.ops[i := Op(op.id, op.used + 1)])
    case LogWritePanic(_) => s.(pc := Panicked)
    case EndOp(i) =>
      var ops := s.ops[..i] + s.ops[i + 1..];
      s.(ops := ops,
         pc := if ops != [] then Serving else if s.lh != [] then Logging(0) else Erased)
    case WriteLogBlock =>
      s.(disk := s.disk[g.logStart + 1 + s.pc.tail := s.dirty[s.lh[s.pc.tail]]],
         pc := Logging(s.pc.tail + 1))
    case WriteHead =>
      s.(disk := s.disk[g.logStart := EncodeHeader(s.disk[g.logStart], s.lh)],
         pc := Installing(0), committed := s.committed + [s.open], open := [])
    case InstallBlock =>
      s.(disk := s.disk[s.lh[s.pc.tail] := s.disk[g.logStart + 1 + s.pc.tail]],
         dirty := s.dirty - {s.lh[s.pc.tail]}, pc := Installing(s.pc.tail + 1))
    case EraseHead =>
      s.(disk := s.disk[g.logStart := EncodeHeader(s.disk[g.logStart], [])],
         lh := [], pc := Erased)
    case FinishCommit => s.(pc := Serving)
    case Crash => s.(dirty := map[], lh := [], ops := [], pc := Booting, open := [])
    case ReadHead => s.(lh := Header(g, s.disk[g.logStart]), pc := Recovering(0))
    case RecoverBlock =>
      s.(disk := s.disk[s.lh[s.pc.tail] := s.disk[g.logStart + 1 + s.pc.tail]],
         pc := Recovering(s.pc.tail + 1))
    case RecoverErase =>
      s.(disk := s.disk[g.logStart := EncodeHeader(s.disk[g.logStart], [])],
         lh := [], pc := Serving)
  }

  predicate Feasible(g: Geometry, s: State, es: seq<Event>)
    decreases |es|, 0
  {
    es == [] || (Feasible(g, s, es[..|es| - 1])
                 && Enabled(g, After(g, s, es[..|es| - 1]), es[|es| - 1]))
  }

  function After(g: Geometry, s: State, es: seq<Event>): State
    requires Feasible(g, s, es)
    decreases |es|, 1
  {
    if es == [] then s else Next(g, After(g, s, es[..|es| - 1]), es[|es| - 1])
  }

  lemma AfterSnoc(g: Geometry, s: State, es: seq<Event>, e: Event)
    requires Feasible(g, s, es) && Enabled(g, After(g, s, es), e)
    ensures Feasible(g, s, es + [e]) && After(g, s, es + [e]) == Next(g, After(g, s, es), e)
  {
    assert (es + [e])[..|es + [e]| - 1] == es;
  }

  /** The promise begin_op relies on and log_write does not test: an operation adds at most
      MAXOPBLOCKS entries to the header. */
  predicate WithinBudget(g: Geometry, s: State, e: Event)
    requires Enabled(g, s, e)
  {
    e.LogWrite? ==> e.block in s.lh || s.ops[e.i].used < g.maxOp
  }

  /** Every operation of the run keeps that promise. */
  predicate InBudget(g: Geometry, s: State, es: seq<Event>)
    requires Feasible(g, s, es)
  {
    es == [] || (InBudget(g, s, es[..|es| - 1])
                 && WithinBudget(g, After(g, s, es[..|es| - 1]), es[|es| - 1]))
  }

  lemma InBudgetSnoc(g: Geometry, s: State, es: seq<Event>, e: Event)
    requires Feasible(g, s, es) && InBudget(g, s, es)
    requires Enabled(g, After(g, s, es), e) && WithinBudget(g, After(g, s, es), e)
    ensures Feasible(g, s, es + [e]) && InBudget(g, s, es + [e])
  {
    assert (es + [e])[..|es + [e]| - 1] == es;
  }

  /** The machine at power-on, with whatever the disk holds. */
  function Boot(disk: seq<Block>): State {
    State(disk, map[], [], [], Booting, [], [], {})
  }

  // ---------------------------------------------------------------- the atomic disk

  function Apply(d: seq<Block>, ws: Group): (r: seq<Block>)
    ensures |r| == |d|
  {
    if ws == [] then d
    else
      var r := Apply(d, ws[..|ws| - 1]);
      var w := ws[|ws| - 1];
      if w.block < |d| then r[w.block := w.data] else r
  }

  /** The disk an atomic implementation would hold after the given groups. */
  function ApplyGroups(d: seq<Block>, gs: seq<Group>): (r: seq<Block>)
    ensures |r| == |d|
  {
    if gs == [] then d else Apply(ApplyGroups(d, gs[..|gs| - 1]), gs[|gs| - 1])
  }

  /** Equal outside the log area. */
  ghost predicate SameHome(g: Geometry, a: seq<Block>, b: seq<Block>) {
    |a| == |b| == g.nblocks && forall k: nat :: g.Home(k) ==> a[k] == b[k]
  }

  /** install_trans: copy the first `t` log blocks to their homes. */
  function Install(g: Geometry, d: seq<Block>, lh: seq<nat>, t: nat): (r: seq<Block>)
    requires t <= |lh| && g.logStart + |lh| < |d|
    ensures |r| == |d|
  {
    if t == 0 then d
    else
      var r := Install(g, d, lh, t - 1);
      if lh[t - 1] < |d| then r[lh[t - 1] := r[g.logStart + t]] else r
  }

  /** What recovery makes of a disk: install the committed transaction, if any. */
  function Recovered(g: Geometry, d: seq<Block>): seq<Block>
    requires g.Ok() && g.DiskShape(d) && HeaderOk(g, d[g.logStart])
  {
    var h := Header(g, d[g.logStart]);
    Install(g, d, h, |h|)
  }

  /** The log holds the final contents of every block in `h`, and every home block outside `h`
      is already final. */
  ghost predicate Redo(g: Geometry, d: seq<Block>, a: seq<Block>, h: seq<nat>) {
    && |d| == |a| == g.nblocks && g.logStart + |h| < g.nblocks && |h| < g.logSize
    && (forall i :: 0 <= i < |h| ==> g.Home(h[i]) && d[g.logStart + 1 + i] == a[h[i]])
    && (forall b: nat :: g.Home(b) && b !in h ==> d[b] == a[b])
  }

  /** `d` is a disk that recovers to `a`. */
  ghost predicate Durable(g: Geometry, d: seq<Block>, a: seq<Block>)
    requires g.Ok()
  {
    && g.DiskShape(d) && HeaderOk(g, d[g.logStart])
    && Redo(g, d, a, Header(g, d[g.logStart]))
  }

  /** `r` is `d` with the first `t` entries of `h` final. */
  ghost predicate Redone(g: Geometry, d: seq<Block>, a: seq<Block>, h: seq<nat>, r: seq<Block>, t: nat)
    requires t <= |h|
  {
    && |r| == |d| == |a| == g.nblocks
    && (forall b: nat :: g.InLog(b) && b < |d| ==> r[b] == d[b])
    && (forall b: nat :: g.Home(b) && b !in h ==> r[b] == a[b])
    && (forall i :: 0 <= i < t ==> g.Home(h[i]) && r[h[i]] == a[h[i]])
  }

  lemma {:induction false} InstallRedo(g: Geometry, d: seq<Block>, a: seq<Block>,
                                       h: seq<nat>, t: nat)
    requires Redo(g, d, a, h) && t <= |h|
    ensures Redone(g, d, a, h, Install(g, d, h, t), t)
  {
    if t > 0 {
      hide Redo, Redone;
      RedoEntry(g, d, a, h, t - 1);
      InstallRedo(g, d, a, h, t - 1);
      RedoOne(g, d, a, h, Install(g, d, h, t - 1), t - 1);
    }
  }

  lemma RedoEntry(g: Geometry, d: seq<Block>, a: seq<Block>, h: seq<nat>, t: nat)
    requires Redo(g, d, a, h) && t < |h|
    ensures |d| == |a| && g.logStart + |h| < |d| && g.logStart + |h| < g.logStart + g.logSize
    ensures g.Home(h[t]) && h[t] < |d| && d[g.logStart + 1 + t] == a[h[t]]
  {
  }

  lemma RedoOne(g: Geometry, d: seq<Block>, a: seq<Block>, h: seq<nat>, q: seq<Block>, t: nat)
    requires t < |h| && Redone(g, d, a, h, q, t) && g.Home(h[t])
    requires g.logStart + |h| < |d| && |h| < g.logSize && d[g.logStart + 1 + t] == a[h[t]]
    ensures |q| == |d| == g.nblocks
    ensures Redone(g, d, a, h, q[h[t] := q[g.logStart + 1 + t]], t + 1)
  {
  }

  /** A durable disk recovers to the atomic disk it stands for. */
  lemma DurableRecovers(g: Geometry, d: seq<Block>, a: seq<Block>)
    requires g.Ok() && Durable(g, d, a)
    ensures SameHome(g, Recovered(g, d), a)
  {
    var h := Header(g, d[g.logStart]);
    InstallRedo(g, d, a, h, |h|);
    forall b: nat | g.Home(b) ensures Recovered(g, d)[b] == a[b] {
      if b in h {
        var i :| 0 <= i < |h| && h[i] == b;
      }
    }
  }

  // ---------------------------------------------------------------- the invariant

  ghost function Atomic(base: seq<Block>, s: State): (r: seq<Block>)
    ensures |r| == |base|
  {
    ApplyGroups(base, s.committed)
  }

  function OpIds(ws: Group): set<nat> {
    set w | w in ws :: w.op
  }

  predicate Distinct(xs: seq<nat>) {
    forall i, j :: 0 <= i < j < |xs| ==> xs[i] != xs[j]
  }

  function Elems(xs: seq<nat>): set<nat> { set b | b in xs }

  ghost predicate LhOk(g: Geometry, s: State) {
    && |s.lh| <= g.logCap && |s.lh| < g.logSize && Distinct(s.lh)
    && (forall i :: 0 <= i < |s.lh| ==> g.Home(s.lh[i]))
  }

  /** The cache over the disk shows the committed groups and then the open one. */
  ghost predicate CacheOk(g: Geometry, base: seq<Block>, s: State) {
    && LhOk(g, s) && |s.disk| == |base| == g.nblocks
    && s.dirty.Keys == Elems(s.lh)
    && (forall b :: b in s.dirty ==> |s.dirty[b]| == g.words)
    && forall b: nat :: g.Home(b) ==>
         Apply(Atomic(base, s), s.open)[b] == if b in s.dirty then s.dirty[b] else s.disk[b]
  }

  /** Every operation's writes lie in one group. */
  ghost predicate GroupsOk(s: State) {
    && (forall k :: 0 <= k < |s.committed| ==> OpIds(s.committed[k]) <= s.seen)
    && OpIds(s.open) <= s.seen
    && (forall i, j :: 0 <= i < j < |s.committed| ==>
          OpIds(s.committed[i]) !! OpIds(s.committed[j]))
    && (forall k :: 0 <= k < |s.committed| ==> OpIds(s.committed[k]) !! OpIds(s.open))
    && (forall i, k :: 0 <= i < |s.ops| && 0 <= k < |s.committed| ==>
          s.ops[i].id !in OpIds(s.committed[k]))
    && (forall i :: 0 <= i < |s.ops| ==> s.ops[i].id in s.seen)
  }

  ghost predicate BudgetOk(g: Geometry, s: State) {
    && (forall i :: 0 <= i < |s.ops| ==> s.ops[i].used <= g.maxOp)
    && (s.ops != [] ==> |s.lh| + BudgetLeft(g, s.ops) <= g.logCap)
  }

  ghost predicate InstallingOk(g: Geometry, a: seq<Block>, s: State, t: nat)
    requires |s.disk| == |a| == g.nblocks
  {
    && LhOk(g, s) && t <= |s.lh|
    && s.dirty.Keys == Elems(s.lh[t..])
    && (forall b :: b in s.dirty ==> b < |a| && s.dirty[b] == a[b] && |s.dirty[b]| == g.words)
    && (forall i :: 0 <= i < t ==> s.disk[s.lh[i]] == a[s.lh[i]])
  }

  ghost predicate RecoveringOk(g: Geometry, a: seq<Block>, d: seq<Block>, lh: seq<nat>, t: nat) {
    && t <= |lh| && |d| == |a| == g.nblocks
    && (forall i :: 0 <= i < t ==> g.Home(lh[i]) && d[lh[i]] == a[lh[i]])
  }

  ghost predicate PhaseOk(g: Geometry, base: seq<Block>, s: State)
    requires g.Ok() && Durable(g, s.disk, Atomic(base, s))
  {
    var a := Atomic(base, s);
    var h := Header(g, s.disk[g.logStart]);
    match s.pc
    case Serving => h == [] && CacheOk(g, base, s)
    case Logging(t) =>
      && h == [] && CacheOk(g, base, s) && s.ops == [] && 0 < |s.lh| && t <= |s.lh|
      && forall i :: 0 <= i < t ==> s.disk[g.logStart + 1 + i] == s.dirty[s.lh[i]]
    case Installing(t) =>
      h == s.lh && s.ops == [] && s.open == [] && InstallingOk(g, a, s, t)
    case Erased => h == [] && CacheOk(g, base, s) && s.ops == [] && s.lh == []
    case Booting => s.ops == [] && s.open == [] && s.lh == [] && s.dirty == map[]
    case Recovering(t) =>
      && h == s.lh && s.ops == [] && s.open == [] && s.dirty == map[]
      && RecoveringOk(g, a, s.disk, s.lh, t)
    case Panicked => true
  }

  ghost predicate DiskInv(g: Geometry, base: seq<Block>, s: State) {
    && g.Ok() && |base| == g.nblocks
    && Durable(g, s.disk, Atomic(base, s)) && PhaseOk(g, base, s)
  }

  /** A transaction closes only when no operation is outstanding. */
  predicate QuietOk(s: State) {
    s.pc != Serving && s.pc != Panicked ==> s.ops == []
  }

  ghost predicate Inv(g: Geometry, base: seq<Block>, s: State) {
    DiskInv(g, base, s) && GroupsOk(s) && QuietOk(s)
  }

  // ---------------------------------------------------------------- preservation

  lemma {:induction false} BudgetConcat(g: Geometry, a: seq<Op>, b: seq<Op>)
    ensures BudgetLeft(g, a + b) == BudgetLeft(g, a) + BudgetLeft(g, b)
  {
    if b == [] {
      assert a + b == a;
    } else {
      BudgetConcat(g, a, b[..|b| - 1]);
      assert (a + b)[..|a + b| - 1] == a + b[..|b| - 1];
    }
  }

  lemma {:induction false} BudgetSplit(g: Geometry, ops: seq<Op>, i: nat, x: Op)
    requires i < |ops|
    ensures BudgetLeft(g, ops) ==
            BudgetLeft(g, ops[..i] + ops[i + 1..]) + (g.maxOp - ops[i].used)
    ensures BudgetLeft(g, ops[i := x]) == BudgetLeft(g, ops) + ops[i].used - x.used
  {
    var l, r := ops[..i], ops[i + 1..];
    assert ops == l + ([ops[i]] + r);
    assert ops[i := x] == l + ([x] + r);
    BudgetConcat(g, l, [ops[i]] + r);
    BudgetConcat(g, l, [x] + r);
    BudgetConcat(g, l, r);
    BudgetConcat(g, [ops[i]], r);
    BudgetConcat(g, [x], r);
    SingleBudget(g, ops[i]);
    SingleBudget(g, x);
  }

  lemma SingleBudget(g: Geometry, x: Op)
    ensures BudgetLeft(g, [x]) == g.maxOp - x.used
  {
    assert [x][..0] == [];
  }

  lemma {:induction false} BudgetBound(g: Geometry, ops: seq<Op>)
    ensures BudgetLeft(g, ops) <= |ops| * g.maxOp
  {
    if ops != [] {
      BudgetBound(g, ops[..|ops| - 1]);
      assert |ops| * g.maxOp == (|ops| - 1) * g.maxOp + g.maxOp;
    }
  }

  lemma {:induction false} BudgetNonneg(g: Geometry, ops: seq<Op>)
    requires forall i :: 0 <= i < |ops| ==> ops[i].used <= g.maxOp
    ensures 0 <= BudgetLeft(g, ops)
  {
    if ops != [] { BudgetNonneg(g, ops[..|ops| - 1]); }
  }

  lemma ApplySnoc(d: seq<Block>, ws: Group, w: Write)
    requires w.block < |d|
    ensures Apply(d, ws + [w]) == Apply(d, ws)[w.block := w.data]
  {
    assert (ws + [w])[..|ws + [w]| - 1] == ws;
  }

  lemma ApplyGroupsSnoc(d: seq<Block>, gs: seq<Group>, ws: Group)
    ensures ApplyGroups(d, gs + [ws]) == Apply(ApplyGroups(d, gs), ws)
  {
    assert (gs + [ws])[..|gs + [ws]| - 1] == gs;
  }

  lemma BudgetBegin(g: Geometry, ops: seq<Op>, id: nat)
    ensures BudgetLeft(g, ops + [Op(id, 0)]) <= (|ops| + 1) * g.maxOp
  {
    BudgetBound(g, ops + [Op(id, 0)]);
  }

  lemma {:induction false} BudgetStep(g: Geometry, s: State, e: Event)
    requires BudgetOk(g, s) && QuietOk(s) && Enabled(g, s, e) && WithinBudget(g, s, e)
    ensures BudgetOk(g, Next(g, s, e))
  {
    hide BudgetLeft;
    match e
    case BeginOp(id) =>
      BudgetBegin(g, s.ops, id);
    case LogWrite(i, _, _) =>
      BudgetSplit(g, s.ops, i, Op(s.ops[i].id, s.ops[i].used + 1));
    case EndOp(i) =>
      BudgetSplit(g, s.ops, i, s.ops[i]);
    case _ =>
  }

  lemma GroupsStep(g: Geometry, s: State, e: Event)
    requires GroupsOk(s) && QuietOk(s) && Enabled(g, s, e)
    ensures GroupsOk(Next(g, s, e))
  {
    var s' := Next(g, s, e);
    assert OpIds([]) == {};
    match e
    case LogWrite(i, block, data) =>
      var w := Write(s.ops[i].id, block, data);
      assert OpIds(s'.open) == OpIds(s.open) + {w.op} by {
        assert s'.open[|s.open|] == w;
        forall x | x in s.open ensures x in s'.open {}
      }
    case EndOp(i) =>
      forall j | 0 <= j < |s'.ops| ensures s'.ops[j] in s.ops {}
    case _ =>
  }

  lemma LogWriteCache(g: Geometry, base: seq<Block>, s: State, e: Event)
    requires g.Ok() && CacheOk(g, base, s) && e.LogWrite? && Enabled(g, s, e)
    ensures CacheOk(g, base, Next(g, s, e))
  {
    hide Apply, ApplyGroups;
    var s' := Next(g, s, e);
    ApplySnoc(Atomic(base, s), s.open, Write(s.ops[e.i].id, e.block, e.data));
    assert s'.dirty.Keys == Elems(s'.lh);
  }

  // What each kind of disk write does to a durable disk.

  lemma LogAreaWrite(g: Geometry, d: seq<Block>, a: seq<Block>, i: nat, data: Block)
    requires g.Ok() && Durable(g, d, a) && Header(g, d[g.logStart]) == []
    requires i + 1 < g.logSize && |data| == g.words
    ensures var d' := d[g.logStart + 1 + i := data];
            Durable(g, d', a) && Header(g, d'[g.logStart]) == []
  {
  }

  lemma CommitWrite(g: Geometry, d: seq<Block>, a: seq<Block>, a': seq<Block>, lh: seq<nat>)
    requires g.Ok() && Durable(g, d, a) && Header(g, d[g.logStart]) == []
    requires |lh| <= g.logCap && |lh| < g.logSize && |a'| == |a|
    requires forall i :: 0 <= i < |lh| ==> g.Home(lh[i])
    requires forall i :: 0 <= i < |lh| ==> d[g.logStart + 1 + i] == a'[lh[i]]
    requires forall b: nat :: g.Home(b) && b !in lh ==> a'[b] == a[b]
    ensures var d' := d[g.logStart := EncodeHeader(d[g.logStart], lh)];
            Durable(g, d', a') && Header(g, d'[g.logStart]) == lh
  {
    HeaderRoundTrip(g, d[g.logStart], lh);
  }

  lemma InstallWrite(g: Geometry, d: seq<Block>, a: seq<Block>, t: nat)
    requires g.Ok() && Durable(g, d, a) && t < |Header(g, d[g.logStart])|
    ensures var h := Header(g, d[g.logStart]);
            var d' := d[h[t] := d[g.logStart + 1 + t]];
            && Durable(g, d', a) && Header(g, d'[g.logStart]) == h && d[g.logStart + 1 + t] == a[h[t]]
            && forall b: nat :: g.Home(b) && d[b] == a[b] ==> d'[b] == a[b]
  {
  }

  lemma EraseWrite(g: Geometry, d: seq<Block>, a: seq<Block>)
    requires g.Ok() && Durable(g, d, a)
    requires var h := Header(g, d[g.logStart]); forall i :: 0 <= i < |h| ==> d[h[i]] == a[h[i]]
    ensures var d' := d[g.logStart := EncodeHeader(d[g.logStart], [])];
            && Durable(g, d', a) && Header(g, d'[g.logStart]) == []
            && forall b: nat :: g.Home(b) ==> d'[b] == a[b]
  {
    HeaderRoundTrip(g, d[g.logStart], []);
  }

  lemma WriteLogBlockKeeps(g: Geometry, base: seq<Block>, s: State)
    requires DiskInv(g, base, s) && Enabled(g, s, WriteLogBlock)
    ensures DiskInv(g, base, Next(g, s, WriteLogBlock))
  {
    hide Apply, ApplyGroups, HeaderOk, InstallingOk, RecoveringOk;
    LogAreaWrite(g, s.disk, Atomic(base, s), s.pc.tail, s.dirty[s.lh[s.pc.tail]]);
    assert CacheOk(g, base, Next(g, s, WriteLogBlock));
  }

  lemma WriteHeadKeeps(g: Geometry, base: seq<Block>, s: State)
    requires DiskInv(g, base, s) && Enabled(g, s, WriteHead)
    ensures DiskInv(g, base, Next(g, s, WriteHead))
  {
    hide Apply, ApplyGroups, EncodeHeader, HeaderOk, InstallingOk, RecoveringOk;
    var s' := Next(g, s, WriteHead);
    var a' := Atomic(base, s');
    assert a' == Apply(Atomic(base, s), s.open) by { ApplyGroupsSnoc(base, s.committed, s.open); }
    assert CacheOk(g, base, s);
    CommitPhase(g, s, Atomic(base, s), a');
  }

  lemma CommitPhase(g: Geometry, s: State, a: seq<Block>, a': seq<Block>)
    requires g.Ok() && Durable(g, s.disk, a) && LhOk(g, s) && |a'| == |a|
    requires Header(g, s.disk[g.logStart]) == [] && Enabled(g, s, WriteHead)
    requires s.dirty.Keys == Elems(s.lh)
    requires forall b :: b in s.dirty ==> |s.dirty[b]| == g.words
    requires forall b: nat :: g.Home(b) ==>
               a'[b] == if b in s.dirty then s.dirty[b] else s.disk[b]
    requires forall i :: 0 <= i < |s.lh| ==> s.disk[g.logStart + 1 + i] == s.dirty[s.lh[i]]
    ensures var s' := Next(g, s, WriteHead);
            && Durable(g, s'.disk, a') && Header(g, s'.disk[g.logStart]) == s.lh
            && InstallingOk(g, a', s', 0)
  {
    forall b | b in s.dirty ensures g.Home(b) && a'[b] == s.dirty[b] {
      assert b in Elems(s.lh);
    }
    forall i | 0 <= i < |s.lh| ensures s.disk[g.logStart + 1 + i] == a'[s.lh[i]] {
      assert s.lh[i] in Elems(s.lh);
    }
    forall b: nat | g.Home(b) && b !in s.lh ensures a'[b] == a[b] {
      assert b !in s.dirty;
    }
    CommitWrite(g, s.disk, a, a', s.lh);
    assert s.lh[0..] == s.lh;
  }

  lemma DurableSize(g: Geometry, d: seq<Block>, a: seq<Block>)
    requires g.Ok() && Durable(g, d, a)
    ensures |d| == |a| == g.nblocks && |d[g.logStart]| == g.words && HeaderOk(g, d[g.logStart])
  {
  }

  lemma InstallBlockKeeps(g: Geometry, base: seq<Block>, s: State)
    requires DiskInv(g, base, s) && Enabled(g, s, InstallBlock)
    ensures DiskInv(g, base, Next(g, s, InstallBlock))
  {
    hide Durable, InstallingOk, ApplyGroups, CacheOk, LhOk, HeaderOk, RecoveringOk;
    var a := Atomic(base, s);
    DurableSize(g, s.disk, a);
    InstallWrite(g, s.disk, a, s.pc.tail);
    InstallPhase(g, s, a);
    DurableSize(g, Next(g, s, InstallBlock).disk, a);
  }

  lemma InstallPhase(g: Geometry, s: State, a: seq<Block>)
    requires g.Ok() && Enabled(g, s, InstallBlock)
    requires |s.disk| == |a| == g.nblocks && InstallingOk(g, a, s, s.pc.tail)
    requires s.disk[g.logStart + 1 + s.pc.tail] == a[s.lh[s.pc.tail]]
    ensures InstallingOk(g, a, Next(g, s, InstallBlock), s.pc.tail + 1)
  {
    ElemsTail(s.lh, s.pc.tail);
    hide Elems, Distinct;
  }

  lemma ElemsTail(xs: seq<nat>, t: nat)
    requires Distinct(xs) && t < |xs|
    ensures Elems(xs[t..]) - {xs[t]} == Elems(xs[t + 1..])
  {
    assert xs[t..] == [xs[t]] + xs[t + 1..];
    assert xs[t] !in xs[t + 1..];
  }

  lemma EraseHeadKeeps(g: Geometry, base: seq<Block>, s: State)
    requires DiskInv(g, base, s) && Enabled(g, s, EraseHead)
    ensures DiskInv(g, base, Next(g, s, EraseHead))
  {
    var s' := Next(g, s, EraseHead);
    EraseWrite(g, s.disk, Atomic(base, s));
    assert s'.dirty.Keys == Elems(s'.lh);
    assert CacheOk(g, base, s');
  }

  lemma RecoverBlockKeeps(g: Geometry, base: seq<Block>, s: State)
    requires DiskInv(g, base, s) && Enabled(g, s, RecoverBlock)
    ensures DiskInv(g, base, Next(g, s, RecoverBlock))
  {
    hide ApplyGroups, CacheOk, InstallingOk, LhOk, HeaderOk;
    var a := Atomic(base, s);
    var d' := Next(g, s, RecoverBlock).disk;
    InstallWrite(g, s.disk, a, s.pc.tail);
    assert RecoveringOk(g, a, d', s.lh, s.pc.tail + 1);
    hide Durable, RecoveringOk;
  }

  lemma RecoverEraseKeeps(g: Geometry, base: seq<Block>, s: State)
    requires DiskInv(g, base, s) && Enabled(g, s, RecoverErase)
    ensures DiskInv(g, base, Next(g, s, RecoverErase))
  {
    var s' := Next(g, s, RecoverErase);
    EraseWrite(g, s.disk, Atomic(base, s));
    assert s'.dirty.Keys == Elems(s'.lh);
    assert CacheOk(g, base, s');
  }

  lemma RecoveringStart(g: Geometry, a: seq<Block>, d: seq<Block>, lh: seq<nat>)
    requires |d| == |a| == g.nblocks
    ensures RecoveringOk(g, a, d, lh, 0)
  {
  }

  lemma CacheFrame(g: Geometry, base: seq<Block>, s: State, s': State)
    requires CacheOk(g, base, s)
    requires s'.disk == s.disk && s'.dirty == s.dirty && s'.lh == s.lh
    requires s'.committed == s.committed && s'.open == s.open
    ensures CacheOk(g, base, s')
  {
  }

  lemma DiskStep(g: Geometry, base: seq<Block>, s: State, e: Event)
    requires DiskInv(g, base, s) && QuietOk(s) && Enabled(g, s, e)
    ensures DiskInv(g, base, Next(g, s, e))
  {
    hide CacheOk, InstallingOk, RecoveringOk, ApplyGroups, HeaderOk;
    var s' := Next(g, s, e);
    match e
    case BeginOp(_) => CacheFrame(g, base, s, s');
    case LogWrite(_, _, _) => LogWriteCache(g, base, s, e);
    case LogWritePanic(_) =>
    case EndOp(i) => CacheFrame(g, base, s, s');
    case WriteLogBlock => WriteLogBlockKeeps(g, base, s);
    case WriteHead => WriteHeadKeeps(g, base, s);
    case InstallBlock => InstallBlockKeeps(g, base, s);
    case EraseHead => EraseHeadKeeps(g, base, s);
    case FinishCommit => CacheFrame(g, base, s, s');
    case Crash =>
    case ReadHead => RecoveringStart(g, Atomic(base, s), s'.disk, s'.lh);
    case RecoverBlock => RecoverBlockKeeps(g, base, s);
    case RecoverErase => RecoverEraseKeeps(g, base, s);
  }

  lemma StepKeeps(g: Geometry, base: seq<Block>, s: State, e: Event)
    requires Inv(g, base, s) && Enabled(g, s, e)
    ensures Inv(g, base, Next(g, s, e))
  {
    DiskStep(g, base, s, e);
    GroupsStep(g, s, e);
  }

  lemma BootInv(g: Geometry, base: seq<Block>, disk: seq<Block>)
    requires g.Ok() && Durable(g, disk, base)
    ensures Inv(g, base, Boot(disk))
  {
    assert OpIds([]) == {};
  }

  lemma {:induction false} RunInv(g: Geometry, base: seq<Block>, disk: seq<Block>, es: seq<Event>)
    requires g.Ok() && Durable(g, disk, base) && Feasible(g, Boot(disk), es)
    ensures Inv(g, base, After(g, Boot(disk), es))
  {
    if es == [] {
      BootInv(g, base, disk);
    } else {
      RunInv(g, base, disk, es[..|es| - 1]);
      StepKeeps(g, base, After(g, Boot(disk), es[..|es| - 1]), es[|es| - 1]);
    }
  }

  // ---------------------------------------------------------------- whole-run theorems

  /** A freshly made image (empty header) stands for itself. */
  lemma FreshImageDurable(g: Geometry, disk: seq<Block>)
    requires g.Ok() && g.DiskShape(disk) && disk[g.logStart][0] == 0
    ensures Durable(g, disk, disk)
  {
  }

  /** Crash atomicity.  Whatever the run, with crashes anywhere, the disk it leaves recovers to
      the initial disk with exactly the committed groups applied, in commit order. */
  lemma CrashAtomicity(g: Geometry, base: seq<Block>, disk: seq<Block>, es: seq<Event>)
    requires g.Ok() && Durable(g, disk, base) && Feasible(g, Boot(disk), es)
    ensures var s := After(g, Boot(disk), es);
            && g.DiskShape(s.disk) && HeaderOk(g, s.disk[g.logStart])
            && SameHome(g, Recovered(g, s.disk), ApplyGroups(base, s.committed))
  {
    RunInv(g, base, disk, es);
    var s := After(g, Boot(disk), es);
    DurableRecovers(g, s.disk, Atomic(base, s));
  }

  /** No operation is outstanding while a transaction is being committed or recovered. */
  lemma QuietCommit(g: Geometry, base: seq<Block>, disk: seq<Block>, es: seq<Event>)
    requires g.Ok() && Durable(g, disk, base) && Feasible(g, Boot(disk), es)
    ensures var s := After(g, Boot(disk), es);
            s.pc.Logging? || s.pc.Installing? || s.pc.Erased? || s.pc.Recovering? ==> s.ops == []
  {
    RunInv(g, base, disk, es);
  }

  lemma {:induction false} BudgetRun(g: Geometry, base: seq<Block>, disk: seq<Block>, es: seq<Event>)
    requires g.Ok() && Durable(g, disk, base)
    requires Feasible(g, Boot(disk), es) && InBudget(g, Boot(disk), es)
    ensures BudgetOk(g, After(g, Boot(disk), es))
  {
    hide Durable, BudgetLeft, DiskInv, GroupsOk, Next, Enabled;
    if es != [] {
      BudgetRun(g, base, disk, es[..|es| - 1]);
      RunInv(g, base, disk, es[..|es| - 1]);
      BudgetStep(g, After(g, Boot(disk), es[..|es| - 1]), es[|es| - 1]);
    }
  }

  /** Admission.  Entries are distinct and never outgrow the header, and while operations keep
      to MAXOPBLOCKS, entries plus unused budgets never exceed LOGSIZE. */
  lemma Admission(g: Geometry, base: seq<Block>, disk: seq<Block>, es: seq<Event>)
    requires g.Ok() && Durable(g, disk, base) && Feasible(g, Boot(disk), es)
    ensures var s := After(g, Boot(disk), es);
            && (s.pc.Serving? || s.pc.Logging? || s.pc.Installing? ==>
                  Distinct(s.lh) && |s.lh| <= g.logCap && |s.lh| < g.logSize)
            && (InBudget(g, Boot(disk), es) && s.ops != [] ==>
                  |s.lh| + BudgetLeft(g, s.ops) <= g.logCap)
  {
    RunInv(g, base, disk, es);
    if InBudget(g, Boot(disk), es) { BudgetRun(g, base, disk, es); }
  }

  /** A commit is never undone: later states keep every committed group. */
  lemma {:induction false} CommitsAreStable(g: Geometry, s: State, es: seq<Event>, k: nat)
    requires Feasible(g, s, es) && k <= |es|
    ensures Feasible(g, s, es[..k])
    ensures After(g, s, es[..k]).committed <= After(g, s, es).committed
  {
    if k == |es| {
      assert es[..k] == es;
    } else {
      var init := es[..|es| - 1];
      CommitsAreStable(g, s, init, k);
      assert init[..k] == es[..k];
      CommittedGrows(g, After(g, s, init), es[|es| - 1]);
    }
  }

  lemma CommittedGrows(g: Geometry, s: State, e: Event)
    requires Enabled(g, s, e)
    ensures s.committed <= Next(g, s, e).committed
  {
  }

  // All or nothing, per operation.

  function WritesBy(ws: Group, o: nat): Group {
    if ws == [] then []
    else
      var r := WritesBy(ws[..|ws| - 1], o);
      if ws[|ws| - 1].op == o then r + [ws[|ws| - 1]] else r
  }

  function CommittedBy(gs: seq<Group>, o: nat): Group {
    if gs == [] then [] else CommittedBy(gs[..|gs| - 1], o) + WritesBy(gs[|gs| - 1], o)
  }

  /** Everything operation `o` passed to log_write during the run, in order. */
  function Issued(g: Geometry, s: State, es: seq<Event>, o: nat): Group
    requires Feasible(g, s, es)
  {
    if es == [] then []
    else
      var init := es[..|es| - 1];
      var e := es[|es| - 1];
      var r := Issued(g, s, init, o);
      if e.LogWrite? && After(g, s, init).ops[e.i].id == o then r + [Write(o, e.block, e.data)] else r
  }

  ghost predicate Outstanding(s: State, o: nat) {
    exists i :: 0 <= i < |s.ops| && s.ops[i].id == o
  }

  ghost predicate FateOf(s: State, o: nat, issued: Group) {
    || (CommittedBy(s.committed, o) == [] && WritesBy(s.open, o) == issued
        && (o !in s.seen ==> issued == []))
    || (CommittedBy(s.committed, o) == issued && WritesBy(s.open, o) == []
        && o in s.seen && !Outstanding(s, o))
    || (CommittedBy(s.committed, o) == [] && WritesBy(s.open, o) == []
        && o in s.seen && !Outstanding(s, o))
  }

  /** Steps that neither write nor commit can only end operations. */
  lemma FateFrame(s: State, s': State, o: nat, issued: Group)
    requires FateOf(s, o, issued)
    requires s'.committed == s.committed && s'.open == s.open && s.seen <= s'.seen
    requires o in s.seen && Outstanding(s', o) ==> Outstanding(s, o)
    ensures FateOf(s', o, issued)
  {
    hide CommittedBy, WritesBy;
  }

  lemma FateLogWrite(g: Geometry, s: State, e: Event, o: nat, issued: Group)
    requires Enabled(g, s, e) && e.LogWrite? && FateOf(s, o, issued) && s.ops[e.i].id in s.seen
    ensures FateOf(Next(g, s, e), o,
                   if s.ops[e.i].id == o then issued + [Write(o, e.block, e.data)] else issued)
  {
    var s' := Next(g, s, e);
    var w := Write(s.ops[e.i].id, e.block, e.data);
    assert WritesBy(s'.open, o) == WritesBy(s.open, o) + if w.op == o then [w] else [] by {
      assert s'.open[..|s'.open| - 1] == s.open;
    }
    hide WritesBy, CommittedBy, Next;
    assert Outstanding(s, s.ops[e.i].id);
    assert Outstanding(s', o) ==> Outstanding(s, o);
  }

  lemma FateCommit(g: Geometry, s: State, o: nat, issued: Group)
    requires Enabled(g, s, WriteHead) && s.ops == [] && FateOf(s, o, issued)
    requires OpIds(s.open) <= s.seen
    ensures FateOf(Next(g, s, WriteHead), o, issued)
  {
    var s' := Next(g, s, WriteHead);
    assert CommittedBy(s'.committed, o) == CommittedBy(s.committed, o) + WritesBy(s.open, o) by {
      assert s'.committed[..|s'.committed| - 1] == s.committed;
    }
    assert WritesBy(s'.open, o) == [];
    assert !Outstanding(s', o);
    hide WritesBy, CommittedBy;
  }

  lemma FateCrash(g: Geometry, s: State, o: nat, issued: Group)
    requires FateOf(s, o, issued)
    ensures FateOf(Next(g, s, Crash), o, issued)
  {
    var s' := Next(g, s, Crash);
    assert WritesBy(s'.open, o) == [];
    hide WritesBy, CommittedBy;
    assert !Outstanding(s', o);
  }

  lemma FateStep(g: Geometry, s: State, e: Event, o: nat, issued: Group)
    requires GroupsOk(s) && QuietOk(s) && Enabled(g, s, e) && FateOf(s, o, issued)
    ensures FateOf(Next(g, s, e), o,
                   if e.LogWrite? && s.ops[e.i].id == o then issued + [Write(o, e.block, e.data)]
                   else issued)
  {
    hide FateOf;
    match e
    case LogWrite(_, _, _) => FateLogWrite(g, s, e, o, issued);
    case WriteHead => FateCommit(g, s, o, issued);
    case Crash => FateCrash(g, s, o, issued);
    case _ =>
      FrameOutstanding(g, s, e, o);
      FateFrame(s, Next(g, s, e), o, issued);
  }

  lemma FrameOutstanding(g: Geometry, s: State, e: Event, o: nat)
    requires Enabled(g, s, e) && !e.LogWrite? && !e.WriteHead? && !e.Crash?
    ensures var s' := Next(g, s, e);
            && s'.committed == s.committed && s'.open == s.open && s.seen <= s'.seen
            && (o in s.seen && Outstanding(s', o) ==> Outstanding(s, o))
  {
    var s' := Next(g, s, e);
    if e.EndOp? {
      forall j | 0 <= j < |s'.ops| ensures s'.ops[j] in s.ops {}
    }
  }

  lemma {:induction false} RunFate(g: Geometry, base: seq<Block>, disk: seq<Block>,
                                   es: seq<Event>, o: nat)
    requires g.Ok() && Durable(g, disk, base) && Feasible(g, Boot(disk), es)
    ensures FateOf(After(g, Boot(disk), es), o, Issued(g, Boot(disk), es, o))
  {
    if es != [] {
      var init := es[..|es| - 1];
      RunFate(g, base, disk, init, o);
      RunInv(g, base, disk, init);
      FateStep(g, After(g, Boot(disk), init), es[|es| - 1], o, Issued(g, Boot(disk), init, o));
    }
  }

  /** Every operation is all present or all absent: of the writes it issued, the committed
      groups (the ones recovery restores) hold either all, in order, or none. */
  lemma AllOrNothing(g: Geometry, base: seq<Block>, disk: seq<Block>, es: seq<Event>, o: nat)
    requires g.Ok() && Durable(g, disk, base) && Feasible(g, Boot(disk), es)
    ensures var c := CommittedBy(After(g, Boot(disk), es).committed, o);
            c == [] || c == Issued(g, Boot(disk), es, o)
  {
    RunFate(g, base, disk, es, o);
  }

  // Recovery always completes.

  function RecoverBlocks(n: nat): (r: seq<Event>)
    ensures |r| == n
  {
    if n == 0 then [] else RecoverBlocks(n - 1) + [RecoverBlock]
  }

  /** Everything initlog does after a crash that leaves `n` entries in the header. */
  function RecoveryRun(n: nat): seq<Event> {
    [Crash, ReadHead] + RecoverBlocks(n) + [RecoverErase]
  }

  lemma CrashEnabled(g: Geometry, s: State)
    ensures Enabled(g, s, Crash)
  {
  }

  lemma RecoverBlockStep(g: Geometry, base: seq<Block>, s: State)
    requires Inv(g, base, s) && s.pc.Recovering? && s.pc.tail < |s.lh|
    ensures Enabled(g, s, RecoverBlock)
    ensures var s' := Next(g, s, RecoverBlock);
            && Inv(g, base, s') && s'.pc == Recovering(s.pc.tail + 1)
            && s'.lh == s.lh && s'.committed == s.committed
  {
    StepKeeps(g, base, s, RecoverBlock);
  }

  lemma RecoverEraseStep(g: Geometry, base: seq<Block>, s: State)
    requires Inv(g, base, s) && s.pc == Recovering(|s.lh|)
    ensures Enabled(g, s, RecoverErase)
    ensures var s' := Next(g, s, RecoverErase);
            && s'.pc == Serving && s'.committed == s.committed
            && SameHome(g, s'.disk, ApplyGroups(base, s.committed))
  {
    StepKeeps(g, base, s, RecoverErase);
    EraseWrite(g, s.disk, Atomic(base, s));
  }

  lemma RebootStep(g: Geometry, base: seq<Block>, s: State)
    requires Inv(g, base, s)
    ensures var s1 := Next(g, s, Crash);
            && Enabled(g, s1, ReadHead)
            && var s2 := Next(g, s1, ReadHead);
            && Inv(g, base, s2) && s2.pc == Recovering(0) && s2.committed == s.committed
            && s2.lh == Header(g, s.disk[g.logStart])
  {
    StepKeeps(g, base, s, Crash);
    StepKeeps(g, base, Next(g, s, Crash), ReadHead);
  }

  lemma {:induction false} RecoveryProgress(g: Geometry, base: seq<Block>, s0: State,
                                            es: seq<Event>, t: nat)
    requires Feasible(g, s0, es) && Inv(g, base, After(g, s0, es))
    requires t <= |Header(g, After(g, s0, es).disk[g.logStart])|
    ensures var all := es + [Crash, ReadHead] + RecoverBlocks(t);
            && Feasible(g, s0, all)
            && var s := After(g, s0, all);
            && Inv(g, base, s)
            && s.pc == Recovering(t) && s.committed == After(g, s0, es).committed
            && s.lh == Header(g, After(g, s0, es).disk[g.logStart])
  {
    hide Next, Inv, After, Feasible, Enabled;
    if t == 0 {
      CrashEnabled(g, After(g, s0, es));
      AfterSnoc(g, s0, es, Crash);
      RebootStep(g, base, After(g, s0, es));
      AfterSnoc(g, s0, es + [Crash], ReadHead);
      assert es + [Crash] + [ReadHead] == es + [Crash, ReadHead] + RecoverBlocks(0);
    } else {
      RecoveryProgress(g, base, s0, es, t - 1);
      var all := es + [Crash, ReadHead] + RecoverBlocks(t - 1);
      RecoverBlockStep(g, base, After(g, s0, all));
      AfterSnoc(g, s0, all, RecoverBlock);
      assert all + [RecoverBlock] == es + [Crash, ReadHead] + RecoverBlocks(t);
    }
  }

  /** From any reachable state a crash followed by initlog runs to the end and leaves the home
      area itself, not only its recovery, equal to the committed groups. */
  lemma RecoveryCompletes(g: Geometry, base: seq<Block>, disk: seq<Block>, es: seq<Event>)
    requires g.Ok() && Durable(g, disk, base) && Feasible(g, Boot(disk), es)
    ensures var s := After(g, Boot(disk), es);
            && g.DiskShape(s.disk) && HeaderOk(g, s.disk[g.logStart])
            && var all := es + RecoveryRun(|Header(g, s.disk[g.logStart])|);
            && Feasible(g, Boot(disk), all)
            && var s' := After(g, Boot(disk), all);
            && s'.pc == Serving && s'.committed == s.committed
            && SameHome(g, s'.disk, ApplyGroups(base, s.committed))
  {
    hide Next, After, Feasible, Enabled;
    RunInv(g, base, disk, es);
    var n := |Header(g, After(g, Boot(disk), es).disk[g.logStart])|;
    RecoveryProgress(g, base, Boot(disk), es, n);
    var all := es + [Crash, ReadHead] + RecoverBlocks(n);
    RecoverEraseStep(g, base, After(g, Boot(disk), all));
    AfterSnoc(g, Boot(disk), all, RecoverErase);
    assert all + [RecoverErase] == es + RecoveryRun(n);
  }
}
