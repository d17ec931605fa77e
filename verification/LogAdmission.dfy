/** When can log_write panic with "too big a transaction"?

    begin_op reserves MAXOPBLOCKS entries of LOGSIZE per operation, but log_write also compares
    against log.size - 1, and mkfs makes log.size equal to LOGSIZE.  The panic is therefore
    reachable by operations that respect their budget, exactly when the log is that small. */
module LogAdmission {
  import opened LogMachine

  /** A geometry with LOGSIZE == 3 * MAXOPBLOCKS, as in param.h, and room for data blocks. */
  predicate Typical(g: Geometry) {
    g.Ok() && 1 <= g.maxOp && g.logCap == 3 * g.maxOp && g.logStart + 2 * g.logSize <= g.nblocks
  }

  predicate Fresh(g: Geometry, disk: seq<Block>) {
    g.Ok() && g.DiskShape(disk) && disk[g.logStart][0] == 0
  }

  function Used(g: Geometry, k: nat, from: nat): nat {
    if k <= from then 0 else if k >= from + g.maxOp then g.maxOp else k - from
  }

  function Ops3(g: Geometry, k: nat): seq<Op> {
    [Op(0, Used(g, k, 0)), Op(1, Used(g, k, g.maxOp)), Op(2, Used(g, k, 2 * g.maxOp))]
  }

  /** Which of the three operations makes the k-th write. */
  function Writer(g: Geometry, k: nat): nat {
    if k < g.maxOp then 0 else if k < 2 * g.maxOp then 1 else 2
  }

  function DataBlock(g: Geometry, k: nat): nat { g.logStart + g.logSize + k }

  function ZeroBlock(g: Geometry): (r: Block)
    ensures |r| == g.words
  {
    seq(g.words, _ => 0)
  }

  /** Boot, begin three operations, then log `k` distinct blocks. */
  function FillRun(g: Geometry, k: nat): seq<Event> {
    if k == 0 then [ReadHead, RecoverErase, BeginOp(0), BeginOp(1), BeginOp(2)]
    else FillRun(g, k - 1) + [LogWrite(Writer(g, k - 1), DataBlock(g, k - 1), ZeroBlock(g))]
  }

  ghost predicate Filled(g: Geometry, s: State, k: nat) {
    && s.pc == Serving && s.ops == Ops3(g, k) && |s.lh| == k
    && forall i :: 0 <= i < k ==> s.lh[i] == DataBlock(g, i)
  }

  lemma StartFill(g: Geometry, s: State)
    ensures Feasible(g, s, []) && After(g, s, []) == s && InBudget(g, s, [])
  {
  }

  lemma FillSnoc(g: Geometry, s: State, es: seq<Event>, e: Event)
    requires Feasible(g, s, es) && InBudget(g, s, es)
    requires Enabled(g, After(g, s, es), e) && WithinBudget(g, After(g, s, es), e)
    ensures Feasible(g, s, es + [e]) && InBudget(g, s, es + [e])
    ensures After(g, s, es + [e]) == Next(g, After(g, s, es), e)
  {
    hide Next, Enabled, WithinBudget;
    AfterSnoc(g, s, es, e);
    InBudgetSnoc(g, s, es, e);
  }

  lemma FillStart(g: Geometry, disk: seq<Block>)
    requires Typical(g) && Fresh(g, disk)
    ensures Feasible(g, Boot(disk), FillRun(g, 0)) && InBudget(g, Boot(disk), FillRun(g, 0))
    ensures Filled(g, After(g, Boot(disk), FillRun(g, 0)), 0)
  {
    var b := Boot(disk);
    var s1 := Next(g, b, ReadHead);
    var s2 := Next(g, s1, RecoverErase);
    var s3 := Next(g, s2, BeginOp(0));
    var s4 := Next(g, s3, BeginOp(1));
    var s5 := Next(g, s4, BeginOp(2));
    assert Filled(g, s5, 0);
    assert FillRun(g, 0) == [] + [ReadHead] + [RecoverErase] + [BeginOp(0)] + [BeginOp(1)] + [BeginOp(2)];
    hide Next, Enabled, After, Feasible, InBudget;
    StartFill(g, b);
    FillSnoc(g, b, [], ReadHead);
    FillSnoc(g, b, [] + [ReadHead], RecoverErase);
    FillSnoc(g, b, [] + [ReadHead] + [RecoverErase], BeginOp(0));
    FillSnoc(g, b, [] + [ReadHead] + [RecoverErase] + [BeginOp(0)], BeginOp(1));
    FillSnoc(g, b, [] + [ReadHead] + [RecoverErase] + [BeginOp(0)] + [BeginOp(1)], BeginOp(2));
  }

  lemma FillStep(g: Geometry, s: State, k: nat)
    requires Typical(g) && Filled(g, s, k) && k < g.logCap && k < g.logSize - 1
    ensures var e := LogWrite(Writer(g, k), DataBlock(g, k), ZeroBlock(g));
            Enabled(g, s, e) && WithinBudget(g, s, e) && Filled(g, Next(g, s, e), k + 1)
  {
    assert DataBlock(g, k) !in s.lh;
    assert Ops3(g, k)[Writer(g, k) := Op(Writer(g, k), Ops3(g, k)[Writer(g, k)].used + 1)]
        == Ops3(g, k + 1);
  }

  lemma {:induction false} FillReaches(g: Geometry, disk: seq<Block>, k: nat)
    requires Typical(g) && Fresh(g, disk) && k <= g.logCap && k <= g.logSize - 1
    ensures Feasible(g, Boot(disk), FillRun(g, k)) && InBudget(g, Boot(disk), FillRun(g, k))
    ensures Filled(g, After(g, Boot(disk), FillRun(g, k)), k)
  {
    if k == 0 {
      FillStart(g, disk);
    } else {
      FillReaches(g, disk, k - 1);
      var s := After(g, Boot(disk), FillRun(g, k - 1));
      FillStep(g, s, k - 1);
      var e := LogWrite(Writer(g, k - 1), DataBlock(g, k - 1), ZeroBlock(g));
      assert FillRun(g, k) == FillRun(g, k - 1) + [e];
      hide Next, Enabled, Filled, After, Feasible, InBudget;
      FillSnoc(g, Boot(disk), FillRun(g, k - 1), e);
    }
  }

  /** Operation `i` may still add an entry, but log_write would panic. */
  ghost predicate InBudgetPanic(g: Geometry, s: State, i: nat) {
    && s.pc == Serving && i < |s.ops| && s.ops[i].used < g.maxOp
    && Enabled(g, s, LogWritePanic(i))
  }

  lemma InBudgetMeansRoom(g: Geometry, s: State, i: nat)
    requires BudgetOk(g, s) && i < |s.ops| && s.ops[i].used < g.maxOp
    ensures |s.lh| < g.logCap
  {
    BudgetSplit(g, s.ops, i, s.ops[i]);
    var rest := s.ops[..i] + s.ops[i + 1..];
    forall j | 0 <= j < |rest| ensures rest[j].used <= g.maxOp {
      assert rest[j] in s.ops;
    }
    BudgetNonneg(g, rest);
  }

  /** The whole family: an in-budget operation can run into the panic if and only if the log
      area is no larger than LOGSIZE blocks (header included). */
  lemma PanicIffLogTooSmall(g: Geometry, disk: seq<Block>)
    requires Typical(g) && Fresh(g, disk)
    ensures (exists es, i: nat :: Feasible(g, Boot(disk), es) && InBudget(g, Boot(disk), es)
                             && InBudgetPanic(g, After(g, Boot(disk), es), i))
            <==> g.logSize <= g.logCap
  {
    if g.logSize <= g.logCap {
      var k := g.logSize - 1;
      FillReaches(g, disk, k);
      var s := After(g, Boot(disk), FillRun(g, k));
      assert InBudgetPanic(g, s, Writer(g, k)) by { hide After, Feasible, InBudget, FillRun; }
    } else {
      forall es, i: nat | Feasible(g, Boot(disk), es) && InBudget(g, Boot(disk), es)
        ensures !InBudgetPanic(g, After(g, Boot(disk), es), i)
      {
        var s := After(g, Boot(disk), es);
        FreshImageDurable(g, disk);
        BudgetRun(g, disk, disk, es);
        hide After, Feasible;
        if i < |s.ops| && s.ops[i].used < g.maxOp {
          InBudgetMeansRoom(g, s, i);
        }
      }
    }
  }

  /** Even with a large enough log, a full header rejects a write that would be absorbed: the
      test at the top of log_write comes before the search for an existing entry. */
  lemma FullLogRejectsAbsorption(g: Geometry, disk: seq<Block>)
    requires Typical(g) && Fresh(g, disk) && g.logCap < g.logSize
    ensures Feasible(g, Boot(disk), FillRun(g, g.logCap))
    ensures var s := After(g, Boot(disk), FillRun(g, g.logCap));
            DataBlock(g, 0) in s.lh && Enabled(g, s, LogWritePanic(0))
  {
    FillReaches(g, disk, g.logCap);
    hide After, Feasible, FillRun;
  }
}
