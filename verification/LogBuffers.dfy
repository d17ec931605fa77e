/** When the log's admission and the cache's size meet: param.h makes NBUF equal to LOGSIZE, and mkfs makes
    the log area as large.  Three operations that are admitted and keep to their budgets can then pin all
    buffers but one, and as soon as anybody holds that one, bget panics. */
module LogBuffers {
  import opened Common
  import A = LogAdmission
  import C = BufCache
  import L = LogCache
  import M = LogMachine

  /** The constants of param.h and mkfs: as many buffers as log blocks, three operations' worth of each. */
  ghost predicate Configured(g: M.Geometry, s: L.State) {
    && A.Typical(g) && g.logSize == g.logCap == |s.c.bufs| && L.Boot(g, s)
    && g.DiskShape(L.Disk(g, s.c)) && s.c.disk[L.K(g.logStart)][0] == 0
  }

  const READER: nat := 9

  /** initlog reads an empty header and writes it back; three operations begin. */
  function StartRun(): seq<L.Event> {
    BootRun() + [L.BeginOp(0)] + [L.BeginOp(1)] + [L.BeginOp(2)]
  }

  function HeaderRun(g: M.Geometry): seq<L.Event> {
    [] + [L.Cache(C.Recycle(0, L.K(g.logStart), 0))] + [L.Cache(C.Load(0))] + [L.ReadHead(0)]
  }

  function BootRun(): seq<L.Event> {
    [L.Copy(0, 0)] + [L.Bwrite(0)] + [L.Stored(0)] + [L.Cache(C.Brelse(0, 0))]
  }

  /** Which process makes the k-th write. */
  function Pid(g: M.Geometry, k: nat): nat { A.Writer(g, k) + 1 }

  /** The k-th write: read a data block into buffer k + 1, log it, release it. */
  function WriteRun(g: M.Geometry, k: nat): seq<L.Event> {
    [] + [L.Cache(C.Recycle(Pid(g, k), L.K(A.DataBlock(g, k)), k + 1))] + [L.Cache(C.Load(k + 1))]
    + [L.LogWrite(A.Writer(g, k), k + 1)] + [L.Cache(C.Brelse(Pid(g, k), k + 1))]
  }

  function FillRun(g: M.Geometry, k: nat): seq<L.Event> {
    if k == 0 then HeaderRun(g) + StartRun() else FillRun(g, k - 1) + WriteRun(g, k - 1)
  }

  // ---------------------------------------------------------------- building runs

  lemma Snoc(g: M.Geometry, s: L.State, es: seq<L.Event>, e: L.Event)
    requires L.Feasible(g, s, es) && L.Enabled(g, L.After(g, s, es), e)
    ensures L.Feasible(g, s, es + [e]) && L.After(g, s, es + [e]) == L.Next(g, L.After(g, s, es), e)
  {
    assert (es + [e])[..|es + [e]| - 1] == es;
  }

  lemma Started(g: M.Geometry, s: L.State)
    ensures L.Feasible(g, s, []) && L.After(g, s, []) == s
  {
  }

  lemma {:induction false} Join(g: M.Geometry, s: L.State, es: seq<L.Event>, fs: seq<L.Event>)
    requires L.Feasible(g, s, es) && L.Feasible(g, L.After(g, s, es), fs)
    ensures L.Feasible(g, s, es + fs) && L.After(g, s, es + fs) == L.After(g, L.After(g, s, es), fs)
    decreases |fs|
  {
    hide L.Enabled, L.Next;
    var all := es + fs;
    if fs == [] {
      assert all == es;
    } else {
      Join(g, s, es, fs[..|fs| - 1]);
      assert all[..|all| - 1] == es + fs[..|fs| - 1];
    }
  }

  // ---------------------------------------------------------------- the start

  /** The header is in buffer 0, every other buffer is blank, and nothing is logged. */
  ghost predicate HeaderIn(g: M.Geometry, n: nat, s: L.State) {
    && |s.c.bufs| == n >= 1 && L.OnDisk(g, s.c) && s.c.pinned == {}
    && s.c.bufs[0].key == Some(L.K(g.logStart)) && s.c.bufs[0].valid
    && (forall b :: 1 <= b < n ==> C.Blank(s.c.bufs[b]))
    && s.lh == [] && s.ops == [] && s.logged == map[] && s.open == [] && s.seen == {}
  }

  lemma ReadsHeader(g: M.Geometry, s: L.State)
    requires Configured(g, s)
    ensures L.Feasible(g, s, HeaderRun(g))
    ensures var z := L.After(g, s, HeaderRun(g));
            Holding(g, |s.c.bufs|, z, C.Held) && z.pc == M.Recovering(0)
  {
    hide L.Feasible, L.After;
    var e1, e2, e3 := L.Cache(C.Recycle(0, L.K(g.logStart), 0)), L.Cache(C.Load(0)), L.ReadHead(0);
    assert C.Blank(s.c.bufs[0]);
    forall b | 0 <= b < |s.c.bufs| ensures s.c.bufs[b].key.None? { assert C.Blank(s.c.bufs[b]); }
    assert |L.Disk(g, s.c)[g.logStart]| == g.words;
    Started(g, s);
    Snoc(g, s, [], e1);
    var s1 := L.Next(g, s, e1);
    Snoc(g, s, [] + [e1], e2);
    var s2 := L.Next(g, s1, e2);
    assert s2.c.bufs[0].data == s.c.disk[L.K(g.logStart)];
    assert M.HeaderOk(g, s2.c.bufs[0].data);
    assert M.Header(g, s2.c.bufs[0].data) == [];
    Snoc(g, s, [] + [e1] + [e2], e3);
  }

  /** The header's buffer is held by the recovering thread, in phase `p`. */
  ghost predicate Holding(g: M.Geometry, n: nat, z: L.State, p: C.Phase) {
    && HeaderIn(g, n, z) && |z.c.bufs[0].data| == g.words && z.c.use == map[0 := C.Use(0, p)]
  }

  lemma CopiesHeader(g: M.Geometry, n: nat, z: L.State)
    requires Holding(g, n, z, C.Held) && z.pc == M.Recovering(0) && g.Ok()
    ensures L.Enabled(g, z, L.Copy(0, 0))
    ensures Holding(g, n, L.Next(g, z, L.Copy(0, 0)), C.Edited) && L.Next(g, z, L.Copy(0, 0)).pc == M.Recovering(0)
  {
  }

  lemma QueuesHeader(g: M.Geometry, n: nat, z: L.State)
    requires Holding(g, n, z, C.Edited) && z.pc == M.Recovering(0)
    ensures L.Enabled(g, z, L.Bwrite(0))
    ensures Holding(g, n, L.Next(g, z, L.Bwrite(0)), C.Storing) && L.Next(g, z, L.Bwrite(0)).pc == M.Recovering(0)
  {
  }

  lemma StoresHeader(g: M.Geometry, n: nat, z: L.State)
    requires Holding(g, n, z, C.Storing) && z.pc == M.Recovering(0)
    ensures L.Enabled(g, z, L.Stored(0))
    ensures var z' := L.Next(g, z, L.Stored(0));
            Holding(g, n, z', C.Held) && z'.pc == M.Serving && !z'.c.bufs[0].dirty
  {
  }

  lemma ReleasesHeader(g: M.Geometry, n: nat, z: L.State)
    requires Holding(g, n, z, C.Held) && !z.c.bufs[0].dirty
    ensures L.Enabled(g, z, L.Cache(C.Brelse(0, 0)))
    ensures var y := L.Next(g, z, L.Cache(C.Brelse(0, 0)));
            HeaderIn(g, n, y) && y.pc == z.pc && !y.c.bufs[0].busy && !y.c.bufs[0].dirty && y.c.use == map[]
  {
    assert L.Next(g, z, L.Cache(C.Brelse(0, 0))).c.use == map[];
  }

  lemma WritesHeaderBack(g: M.Geometry, z: L.State)
    requires Holding(g, |z.c.bufs|, z, C.Held) && z.pc == M.Recovering(0) && g.Ok()
    ensures L.Feasible(g, z, BootRun())
    ensures var y := L.After(g, z, BootRun());
            && HeaderIn(g, |z.c.bufs|, y) && y.pc == M.Serving
            && !y.c.bufs[0].busy && !y.c.bufs[0].dirty && y.c.use == map[]
  {
    hide L.Feasible, L.After, L.Enabled, L.Next, Holding, HeaderIn;
    var n := |z.c.bufs|;
    var e1, e2, e3, e4 := L.Copy(0, 0), L.Bwrite(0), L.Stored(0), L.Cache(C.Brelse(0, 0));
    Started(g, z);
    CopiesHeader(g, n, z);
    Snoc(g, z, [], e1);
    assert [] + [e1] == [e1];
    QueuesHeader(g, n, L.Next(g, z, e1));
    Snoc(g, z, [e1], e2);
    StoresHeader(g, n, L.After(g, z, [e1] + [e2]));
    Snoc(g, z, [e1] + [e2], e3);
    ReleasesHeader(g, n, L.After(g, z, [e1] + [e2] + [e3]));
    Snoc(g, z, [e1] + [e2] + [e3], e4);
  }

  // ---------------------------------------------------------------- the writes

  /** `k` blocks are logged and pinned in buffers 1 to k, within the operations' budgets. */
  ghost predicate Filled(g: M.Geometry, n: nat, s: L.State, k: nat) {
    && s.pc == M.Serving && s.ops == A.Ops3(g, k) && |s.lh| == k
    && (forall i :: 0 <= i < k ==> s.lh[i] == A.DataBlock(g, i))
    && |s.c.bufs| == n && L.OnDisk(g, s.c) && s.c.use == map[]
    && n >= 1 && s.c.bufs[0].key == Some(L.K(g.logStart)) && !s.c.bufs[0].busy && !s.c.bufs[0].dirty
    && (forall b :: 1 <= b <= k && b < n ==> PinnedBy(g, s.c.bufs[b], b))
    && (forall b :: k < b < n ==> C.Blank(s.c.bufs[b]))
  }

  predicate PinnedBy(g: M.Geometry, f: C.Buf<M.Block>, b: nat)
    requires b >= 1
  {
    f.key == Some(L.K(A.DataBlock(g, b - 1))) && f.dirty
  }

  lemma OperationsBegin(g: M.Geometry, y: L.State)
    requires A.Typical(g) && HeaderIn(g, |y.c.bufs|, y) && y.pc == M.Serving
    requires !y.c.bufs[0].busy && !y.c.bufs[0].dirty && y.c.use == map[]
    ensures var es := [L.BeginOp(0)] + [L.BeginOp(1)] + [L.BeginOp(2)];
            L.Feasible(g, y, es) && Filled(g, |y.c.bufs|, L.After(g, y, es), 0)
  {
    hide L.Feasible, L.After;
    Started(g, y);
    assert [] + [L.BeginOp(0)] == [L.BeginOp(0)];
    Snoc(g, y, [], L.BeginOp(0));
    var y1 := L.Next(g, y, L.BeginOp(0));
    Snoc(g, y, [L.BeginOp(0)], L.BeginOp(1));
    var y2 := L.Next(g, y1, L.BeginOp(1));
    Snoc(g, y, [L.BeginOp(0)] + [L.BeginOp(1)], L.BeginOp(2));
  }

  lemma NotCached(g: M.Geometry, n: nat, s: L.State, k: nat)
    requires A.Typical(g) && Filled(g, n, s, k)
    ensures !C.Cached(s.c.bufs, L.K(A.DataBlock(g, k)))
  {
    forall b | 0 <= b < n ensures s.c.bufs[b].key != Some(L.K(A.DataBlock(g, k))) {
      assert k < b ==> C.Blank(s.c.bufs[b]);
      assert 1 <= b <= k ==> PinnedBy(g, s.c.bufs[b], b);
    }
  }

  lemma NextOps(g: M.Geometry, k: nat)
    requires A.Typical(g) && k < g.logCap
    ensures var w := A.Writer(g, k);
            A.Ops3(g, k)[w := M.Op(A.Ops3(g, k)[w].id, A.Ops3(g, k)[w].used + 1)] == A.Ops3(g, k + 1)
    ensures A.Ops3(g, k)[A.Writer(g, k)].id == A.Writer(g, k)
  {
  }

  /** The k-th write is under way: buffer k + 1 is held, in phase `p`. */
  ghost predicate Writing(g: M.Geometry, n: nat, s: L.State, k: nat, p: C.Phase, logged: bool) {
    && k + 1 < n && Rest(g, n, s, k) && s.c.use == map[k + 1 := C.Use(Pid(g, k), p)]
    && s.c.bufs[k + 1].key == Some(L.K(A.DataBlock(g, k))) && s.c.bufs[k + 1].dirty == logged
    && Logged(g, s, if logged then k + 1 else k)
  }

  /** What the log knows after `k` writes. */
  ghost predicate Logged(g: M.Geometry, s: L.State, k: nat) {
    && s.pc == M.Serving && s.ops == A.Ops3(g, k) && |s.lh| == k
    && forall i :: 0 <= i < k ==> s.lh[i] == A.DataBlock(g, i)
  }

  /** All buffers but k + 1. */
  ghost predicate Rest(g: M.Geometry, n: nat, s: L.State, k: nat) {
    && |s.c.bufs| == n && L.OnDisk(g, s.c)
    && n >= 1 && s.c.bufs[0].key == Some(L.K(g.logStart)) && !s.c.bufs[0].busy && !s.c.bufs[0].dirty
    && (forall b :: 1 <= b <= k && b < n ==> PinnedBy(g, s.c.bufs[b], b))
    && (forall b :: k + 1 < b < n ==> C.Blank(s.c.bufs[b]))
  }

  lemma GetsBlock(g: M.Geometry, n: nat, s: L.State, k: nat)
    requires A.Typical(g) && Filled(g, n, s, k) && k + 1 < n && k < g.logSize - 1
    ensures var e := L.Cache(C.Recycle(Pid(g, k), L.K(A.DataBlock(g, k)), k + 1));
            L.Enabled(g, s, e) && Writing(g, n, L.Next(g, s, e), k, C.Loading, false)
  {
    NotCached(g, n, s, k);
    assert C.Blank(s.c.bufs[k + 1]);
  }

  lemma LoadsBlock(g: M.Geometry, n: nat, s: L.State, k: nat)
    requires A.Typical(g) && Writing(g, n, s, k, C.Loading, false) && k < g.logSize - 1
    ensures var e := L.Cache(C.Load(k + 1));
            L.Enabled(g, s, e) && Writing(g, n, L.Next(g, s, e), k, C.Held, false)
  {
  }

  lemma LogsBlock(g: M.Geometry, n: nat, s: L.State, k: nat)
    requires A.Typical(g) && Writing(g, n, s, k, C.Held, false) && k < g.logCap && k < g.logSize - 1
    ensures var e := L.LogWrite(A.Writer(g, k), k + 1);
            L.Enabled(g, s, e) && Writing(g, n, L.Next(g, s, e), k, C.Held, true)
  {
    NextOps(g, k);
    assert A.DataBlock(g, k) !in s.lh;
    var s' := L.Next(g, s, L.LogWrite(A.Writer(g, k), k + 1));
    assert Rest(g, n, s', k);
    assert Logged(g, s', k + 1);
  }

  lemma ReleasesBlock(g: M.Geometry, n: nat, s: L.State, k: nat)
    requires Writing(g, n, s, k, C.Held, true)
    ensures var e := L.Cache(C.Brelse(Pid(g, k), k + 1));
            L.Enabled(g, s, e) && Filled(g, n, L.Next(g, s, e), k + 1)
  {
    var s' := L.Next(g, s, L.Cache(C.Brelse(Pid(g, k), k + 1)));
    assert s'.c.use == map[];
    assert PinnedBy(g, s'.c.bufs[k + 1], k + 1);
  }

  lemma WriteStep(g: M.Geometry, n: nat, s: L.State, k: nat)
    requires A.Typical(g) && Filled(g, n, s, k) && k + 1 < n && k < g.logCap && k < g.logSize - 1
    ensures L.Feasible(g, s, WriteRun(g, k)) && Filled(g, n, L.After(g, s, WriteRun(g, k)), k + 1)
  {
    hide L.Feasible, L.After, L.Enabled, L.Next, Filled, Writing, A.Typical;
    var p, x, b := Pid(g, k), A.DataBlock(g, k), k + 1;
    var e1, e2 := L.Cache(C.Recycle(p, L.K(x), b)), L.Cache(C.Load(b));
    var e3, e4 := L.LogWrite(A.Writer(g, k), b), L.Cache(C.Brelse(p, b));
    Started(g, s);
    GetsBlock(g, n, s, k);
    Snoc(g, s, [], e1);
    LoadsBlock(g, n, L.After(g, s, [] + [e1]), k);
    Snoc(g, s, [] + [e1], e2);
    LogsBlock(g, n, L.After(g, s, [] + [e1] + [e2]), k);
    Snoc(g, s, [] + [e1] + [e2], e3);
    ReleasesBlock(g, n, L.After(g, s, [] + [e1] + [e2] + [e3]), k);
    Snoc(g, s, [] + [e1] + [e2] + [e3], e4);
  }

  lemma {:induction false} Fills(g: M.Geometry, s: L.State, k: nat)
    requires Configured(g, s) && k < |s.c.bufs|
    ensures L.Feasible(g, s, FillRun(g, k)) && Filled(g, |s.c.bufs|, L.After(g, s, FillRun(g, k)), k)
  {
    hide L.Feasible, L.After, L.Enabled, L.Next, Filled, HeaderRun, BootRun, WriteRun;
    if k == 0 {
      ReadsHeader(g, s);
      var z := L.After(g, s, HeaderRun(g));
      WritesHeaderBack(g, z);
      Join(g, s, HeaderRun(g), BootRun());
      var y := L.After(g, z, BootRun());
      OperationsBegin(g, y);
      var begins := [L.BeginOp(0)] + [L.BeginOp(1)] + [L.BeginOp(2)];
      Join(g, s, HeaderRun(g) + BootRun(), begins);
      assert HeaderRun(g) + StartRun() == HeaderRun(g) + BootRun() + begins;
    } else {
      Fills(g, s, k - 1);
      var z := L.After(g, s, FillRun(g, k - 1));
      WriteStep(g, |s.c.bufs|, z, k - 1);
      Join(g, s, FillRun(g, k - 1), WriteRun(g, k - 1));
    }
  }

  /** The failing run: admitted operations within their budgets fill the log to its last block, a reader gets
      the last buffer, and bget of any block that is not cached panics. */
  lemma FullLogLeavesNoBuffer(g: M.Geometry, s: L.State)
    requires Configured(g, s)
    ensures var n := |s.c.bufs|;
            n >= 1
            && var es := FillRun(g, n - 1) + [L.Cache(C.Recycle(READER, L.K(A.DataBlock(g, n - 1)), 0))];
            && L.Feasible(g, s, es)
            && var t := L.After(g, s, es);
            && t.pc == M.Serving && |t.lh| < g.logSize && C.NoVictim(t.c)
            && forall i :: 0 <= i < |t.ops| ==> t.ops[i].used <= g.maxOp
  {
    hide L.Feasible, L.After, FillRun;
    var n := |s.c.bufs|;
    Fills(g, s, n - 1);
    var z := L.After(g, s, FillRun(g, n - 1));
    var e := L.Cache(C.Recycle(READER, L.K(A.DataBlock(g, n - 1)), 0));
    NotCached(g, n, z, n - 1);
    Snoc(g, s, FillRun(g, n - 1), e);
    forall b | 0 <= b < n ensures C.Taken(L.Next(g, z, e).c.bufs[b]) {
      assert 1 <= b ==> PinnedBy(g, z.c.bufs[b], b);
    }
  }
}
