/** log.c itself: the in-memory log, its loops and its disk writes, in place.

    Every method extends the ghost `run` by the machine steps it takes and keeps `st` equal to
    the state the machine reaches, so each theorem of LogMachine about runs and their prefixes
    (a crash between any two disk writes) holds of this code. */
module LogCode {
  import opened LogMachine

  function Repeat(e: Event, k: nat): (r: seq<Event>)
    ensures |r| == k && forall i :: 0 <= i < k ==> r[i] == e
  {
    seq(k, _ => e)
  }

  lemma RepeatSnoc(e: Event, k: nat)
    ensures Repeat(e, k + 1) == Repeat(e, k) + [e]
  {
  }

  /** The steps of commit() with `n` header entries. */
  function CommitRun(n: nat): seq<Event> {
    if n == 0 then []
    else Repeat(WriteLogBlock, n) + [WriteHead] + Repeat(InstallBlock, n) + [EraseHead]
  }

  class Log {
    const g: Geometry
    var n: nat                  // log.lh.n
    const block: array<nat>     // log.lh.block
    var outstanding: nat
    var committing: bool
    var disk: seq<Block>        // what iderw reads and writes
    var dirty: map<nat, Block>  // cached blocks pinned with B_DIRTY

    ghost const image: seq<Block>   // the disk at first power-on
    ghost const base: seq<Block>    // what that disk recovers to
    ghost var run: seq<Event>
    ghost var st: State

    ghost predicate Tracks()
      reads this
    {
      && g.Ok() && Durable(g, image, base)
      && Feasible(g, Boot(image), run) && st == After(g, Boot(image), run)
      && Inv(g, base, st)
    }

    /** The fields are the machine's state. */
    ghost predicate Agrees()
      reads this, block
    {
      && block.Length == g.logCap && n <= block.Length
      && st.disk == disk && st.dirty == dirty && st.lh == block[..n]
      && |st.ops| == outstanding
    }

    ghost predicate Valid()
      reads this, block
    {
      && Tracks() && Agrees()
      && (committing <==> st.pc.Logging? || st.pc.Installing? || st.pc.Erased?)
    }

    constructor (g: Geometry, image: seq<Block>, ghost base: seq<Block>)
      requires g.Ok() && Durable(g, image, base)
      ensures Valid() && this.g == g && this.image == image && this.base == base
      ensures run == [] && st.pc == Booting && fresh(block)
    {
      this.g, this.image, this.base := g, image, base;
      n, outstanding, committing := 0, 0, false;
      block := new nat[g.logCap];
      disk, dirty := image, map[];
      run, st := [], Boot(image);
      new;
      BootInv(g, base, image);
    }

    /** Record that the machine took step `e`. */
    ghost method Track(e: Event)
      requires Tracks() && Enabled(g, st, e)
      modifies this`run, this`st
      ensures Tracks() && run == old(run) + [e] && st == Next(g, old(st), e)
    {
      hide Inv, Next, Enabled, Durable;
      AfterSnoc(g, Boot(image), run, e);
      StepKeeps(g, base, st, e);
      st := Next(g, st, e);
      run := run + [e];
    }

    /** bread of a home block, as seen by a file system operation: it sees every committed
        group and everything the open operations have written so far. */
    method Bread(b: nat) returns (data: Block)
      requires Valid() && st.pc == Serving && g.Home(b)
      ensures data == Apply(ApplyGroups(base, st.committed), st.open)[b]
    {
      assert CacheOk(g, base, st);
      data := if b in dirty then dirty[b] else disk[b];
    }

    /** One pass of begin_op's loop: admit the operation, or report that it must sleep. */
    method BeginOp(ghost id: nat) returns (admitted: bool)
      requires Valid() && id !in st.seen && st.pc != Booting && !st.pc.Recovering? && st.pc != Panicked
      modifies this
      ensures Valid() && disk == old(disk)
      ensures admitted <==> !old(committing) && old(n) + (old(outstanding) + 1) * g.maxOp <= g.logCap
      ensures run == if admitted then old(run) + [LogMachine.BeginOp(id)] else old(run)
    {
      hide Inv, Durable, After, Feasible, Next, Enabled;
      if committing {
        admitted := false;
      } else if n + (outstanding + 1) * g.maxOp > g.logCap {
        admitted := false;
      } else {
        outstanding := outstanding + 1;
        admitted := true;
        BeginOpStep(g, base, st, id);
        Track(LogMachine.BeginOp(id));
      }
    }

    /** log_write: record the block number, absorbing repeats, and pin the buffer. */
    method LogWrite(b: nat, data: Block, ghost i: nat) returns (panicked: bool)
      requires Valid() && st.pc == Serving && i < outstanding && g.Home(b) && |data| == g.words
      modifies this, block
      ensures Valid() && disk == old(disk)
      ensures panicked <==> old(n) >= g.logCap || old(n) >= g.logSize - 1
      ensures run == old(run) + [if panicked then LogWritePanic(i) else LogMachine.LogWrite(i, b, data)]
    {
      hide Inv, Durable, After, Feasible, Next, Enabled;
      if n >= g.logCap || n >= g.logSize - 1 {
        panicked := true;
        PanicStep(g, st, i);
        Track(LogWritePanic(i));
        return;
      }
      panicked := false;
      var k := 0;
      while k < n && block[k] != b
        invariant k <= n && b !in block[..k]
      {
        k := k + 1;
      }
      ghost var lh := block[..n];
      assert k < n ==> lh[k] == b;
      block[k] := b;
      if k == n {
        n := n + 1;
        assert block[..n] == lh + [b];
      } else {
        assert block[..n] == lh;
      }
      dirty := dirty[b := data];
      LogWriteStep(g, st, i, b, data);
      Track(LogMachine.LogWrite(i, b, data));
    }

    /** write_head: store the in-memory header in the on-disk header block. */
    method WriteHead()
      requires n <= block.Length && g.logStart < |disk| && n < |disk[g.logStart]|
      modifies this`disk
      ensures disk == old(disk)[g.logStart := EncodeHeader(old(disk)[g.logStart], block[..n])]
    {
      var hb := disk[g.logStart];
      ghost var was := hb;
      hb := hb[0 := n];
      var i := 0;
      while i < n
        invariant i <= n && |hb| == |was| && hb[0] == n
        invariant forall k :: 0 <= k < i ==> hb[1 + k] == block[k]
        invariant forall k :: i < k < |hb| ==> hb[k] == was[k]
      {
        hb := hb[1 + i := block[i]];
        i := i + 1;
      }
      assert hb == EncodeHeader(was, block[..n]);
      disk := disk[g.logStart := hb];
    }

    /** read_head: load the on-disk header into memory. */
    method ReadHead()
      requires n <= block.Length == g.logCap && g.logStart < |disk| && HeaderOk(g, disk[g.logStart])
      modifies this`n, block
      ensures n <= block.Length && block[..n] == Header(g, disk[g.logStart])
    {
      var hb := disk[g.logStart];
      n := hb[0];
      var i := 0;
      while i < n
        invariant i <= n && n == hb[0]
        invariant forall k :: 0 <= k < i ==> block[k] == hb[k + 1]
      {
        block[i] := hb[i + 1];
        i := i + 1;
      }
    }

    /** write_log: copy the modified blocks from the cache to the log. */
    method WriteLog()
      requires Valid() && st.pc == Logging(0)
      modifies this`disk, this`run, this`st
      ensures Valid() && st.pc == Logging(n) && run == old(run) + Repeat(WriteLogBlock, n)
      ensures st.committed == old(st.committed) && st.open == old(st.open)
    {
      hide Inv, Durable, After, Feasible, Next, Enabled;
      var tail := 0;
      while tail < n
        invariant tail <= n && Valid() && st.pc == Logging(tail)
        invariant run == old(run) + Repeat(WriteLogBlock, tail)
        invariant st.committed == old(st.committed) && st.open == old(st.open)
      {
        LoggingReady(g, base, st);
        disk := disk[g.logStart + tail + 1 := dirty[block[tail]]];
        Track(WriteLogBlock);
        RepeatSnoc(WriteLogBlock, tail);
        tail := tail + 1;
      }
    }

    /** install_trans: copy the log blocks to their homes; `e` is the machine's name for one
        such copy, depending on whether commit or recovery is at work. */
    method InstallTrans(ghost e: Event)
      requires Valid()
      requires (e == InstallBlock && st.pc == Installing(0)) || (e == RecoverBlock && st.pc == Recovering(0))
      modifies this`disk, this`dirty, this`run, this`st
      ensures Valid() && run == old(run) + Repeat(e, n)
      ensures st.pc == if e == InstallBlock then Installing(n) else Recovering(n)
      ensures st.committed == old(st.committed)
    {
      hide Inv, Durable, After, Feasible, Next, Enabled;
      var tail := 0;
      while tail < n
        invariant tail <= n && Valid() && run == old(run) + Repeat(e, tail)
        invariant st.pc == if e == InstallBlock then Installing(tail) else Recovering(tail)
        invariant st.committed == old(st.committed)
      {
        InstallReady(g, base, st, e);
        var lbuf := disk[g.logStart + tail + 1];
        disk := disk[block[tail] := lbuf];
        dirty := dirty - {block[tail]};
        Track(e);
        RepeatSnoc(e, tail);
        tail := tail + 1;
      }
    }

    /** commit: nothing to do for an empty transaction. */
    method Commit()
      requires Valid() && st.pc == (if n == 0 then Erased else Logging(0))
      modifies this`n, this`disk, this`dirty, this`run, this`st
      ensures Valid() && st.pc == Erased && run == old(run) + CommitRun(old(n))
      ensures st.committed == old(st.committed) + if old(n) == 0 then [] else [old(st.open)]
    {
      hide Inv, Durable, After, Feasible, Next, Enabled;
      if n > 0 {
        WriteLog();
        CommitHeadStep();
        InstallTrans(InstallBlock);
        EraseStep(EraseHead);
      }
    }

    /** The header write that commits the transaction. */
    method CommitHeadStep()
      requires Valid() && 0 < n && st.pc == Logging(n)
      modifies this`disk, this`run, this`st
      ensures Valid() && st.pc == Installing(0) && run == old(run) + [LogMachine.WriteHead]
      ensures st.committed == old(st.committed) + [old(st.open)]
    {
      hide Inv, Durable, After, Feasible, Next, Enabled, EncodeHeader;
      HeadReady(g, base, st);
      WriteHead();
      CommitHeadEffect(g, base, st);
      Track(LogMachine.WriteHead);
    }

    /** log.lh.n = 0 and the header write that erases the transaction. */
    method EraseStep(ghost e: Event)
      requires Valid()
      requires (e == EraseHead && st.pc == Installing(n)) || (e == RecoverErase && st.pc == Recovering(n))
      modifies this`n, this`disk, this`run, this`st
      ensures Valid() && n == 0 && run == old(run) + [e] && st.committed == old(st.committed)
      ensures st.pc == if e == EraseHead then Erased else Serving
    {
      hide Inv, Durable, After, Feasible, Next, Enabled, EncodeHeader;
      HeadReady(g, base, st);
      EraseEffect(g, base, st);
      n := 0;
      WriteHead();
      assert block[..n] == [];
      Track(e);
    }

    /** end_op: the last outstanding operation commits for all of them, and then every home
        block is on disk with the effect of all committed groups. */
    method EndOp(ghost i: nat)
      requires Valid() && st.pc == Serving && i < outstanding
      modifies this
      ensures Valid() && st.pc == Serving && outstanding == old(outstanding) - 1
      ensures run == old(run) + [LogMachine.EndOp(i)]
                     + if old(outstanding) == 1 then CommitRun(old(n)) + [FinishCommit] else []
      ensures st.committed == old(st.committed)
                     + if old(outstanding) == 1 && old(n) > 0 then [old(st.open)] else []
      ensures old(outstanding) == 1 ==> SameHome(g, disk, ApplyGroups(base, st.committed))
    {
      hide Inv, Durable, After, Feasible, Next, Enabled, CommitRun;
      EndOpStep(g, st, i);
      Track(LogMachine.EndOp(i));
      outstanding := outstanding - 1;
      if outstanding == 0 {
        committing := true;
        Commit();
        committing := false;
        FinishStep(g, base, st);
        Track(FinishCommit);
      }
    }

    /** Power fails: memory is lost, the disk stays. */
    method PowerFail()
      requires Valid()
      modifies this
      ensures Valid() && st.pc == Booting && disk == old(disk) && run == old(run) + [Crash]
      ensures st.committed == old(st.committed)
    {
      hide Inv, Durable, After, Feasible, Next, Enabled;
      n, outstanding, committing, dirty := 0, 0, false, map[];
      CrashStep(g, st);
      Track(Crash);
      assert block[..n] == [];
    }

    /** recover_from_log: afterwards every home block on disk has the effect of exactly the
        committed groups. */
    method RecoverFromLog()
      requires Valid() && st.pc == Booting
      modifies this, block
      ensures Valid() && st.pc == Serving && st.committed == old(st.committed)
      ensures run == old(run) + [LogMachine.ReadHead]
                     + Repeat(RecoverBlock, |Header(g, old(disk)[g.logStart])|) + [RecoverErase]
      ensures SameHome(g, disk, ApplyGroups(base, st.committed))
    {
      hide Inv, Durable, After, Feasible, Next, Enabled, EncodeHeader;
      BootStep(g, base, st);
      ReadHead();
      Track(LogMachine.ReadHead);
      InstallTrans(RecoverBlock);
      ghost var k := n;
      EraseStep(RecoverErase);
      ServingHome(g, base, st);
      assert run == old(run) + [LogMachine.ReadHead] + Repeat(RecoverBlock, k) + [RecoverErase];
    }
  }

  // What each step does to the state, for use where the step function is hidden.

  lemma BeginOpStep(g: Geometry, base: seq<Block>, s: State, id: nat)
    requires Inv(g, base, s) && s.pc == Serving && id !in s.seen
    requires |s.lh| + (|s.ops| + 1) * g.maxOp <= g.logCap
    ensures Enabled(g, s, BeginOp(id))
    ensures Next(g, s, BeginOp(id)) == s.(ops := s.ops + [Op(id, 0)], seen := s.seen + {id})
  {
  }

  lemma PanicStep(g: Geometry, s: State, i: nat)
    requires s.pc == Serving && i < |s.ops| && g.LogFull(|s.lh|)
    ensures Enabled(g, s, LogWritePanic(i))
    ensures Next(g, s, LogWritePanic(i)) == s.(pc := Panicked)
  {
  }

  lemma LogWriteStep(g: Geometry, s: State, i: nat, b: nat, data: Block)
    requires s.pc == Serving && i < |s.ops| && !g.LogFull(|s.lh|) && g.Home(b) && |data| == g.words
    ensures Enabled(g, s, LogWrite(i, b, data))
    ensures var s' := Next(g, s, LogWrite(i, b, data));
            && s'.disk == s.disk && s'.pc == s.pc && |s'.ops| == |s.ops|
            && s'.dirty == s.dirty[b := data]
            && s'.lh == if b in s.lh then s.lh else s.lh + [b]
  {
  }

  lemma EndOpStep(g: Geometry, s: State, i: nat)
    requires s.pc == Serving && i < |s.ops|
    ensures Enabled(g, s, EndOp(i))
    ensures Next(g, s, EndOp(i)) ==
            s.(ops := s.ops[..i] + s.ops[i + 1..],
               pc := if |s.ops| > 1 then Serving else if s.lh != [] then Logging(0) else Erased)
  {
  }

  lemma FinishStep(g: Geometry, base: seq<Block>, s: State)
    requires Inv(g, base, s) && s.pc == Erased
    ensures Enabled(g, s, FinishCommit) && Next(g, s, FinishCommit) == s.(pc := Serving)
    ensures SameHome(g, s.disk, ApplyGroups(base, s.committed))
  {
  }

  lemma ServingHome(g: Geometry, base: seq<Block>, s: State)
    requires Inv(g, base, s) && s.pc == Serving
    ensures SameHome(g, s.disk, ApplyGroups(base, s.committed))
  {
  }

  lemma CrashStep(g: Geometry, s: State)
    ensures Enabled(g, s, Crash)
    ensures Next(g, s, Crash) == s.(dirty := map[], lh := [], ops := [], pc := Booting, open := [])
  {
  }

  lemma BootStep(g: Geometry, base: seq<Block>, s: State)
    requires Inv(g, base, s) && s.pc == Booting
    ensures Enabled(g, s, ReadHead) && g.logStart < |s.disk| && HeaderOk(g, s.disk[g.logStart])
    ensures Next(g, s, ReadHead) == s.(lh := Header(g, s.disk[g.logStart]), pc := Recovering(0))
  {
  }

  lemma LoggingReady(g: Geometry, base: seq<Block>, s: State)
    requires Inv(g, base, s) && s.pc.Logging? && s.pc.tail < |s.lh|
    ensures Enabled(g, s, WriteLogBlock)
    ensures var t := s.pc.tail;
            && s.lh[t] in s.dirty && g.logStart + 1 + t < |s.disk|
            && Next(g, s, WriteLogBlock) ==
               s.(disk := s.disk[g.logStart + 1 + t := s.dirty[s.lh[t]]], pc := Logging(t + 1))
  {
    assert s.lh[s.pc.tail] in Elems(s.lh);
  }

  lemma InstallReady(g: Geometry, base: seq<Block>, s: State, e: Event)
    requires Inv(g, base, s) && (s.pc.Installing? || s.pc.Recovering?) && s.pc.tail < |s.lh|
    requires e == if s.pc.Installing? then InstallBlock else RecoverBlock
    ensures Enabled(g, s, e)
    ensures var t := s.pc.tail;
            && g.logStart + 1 + t < |s.disk| && s.lh[t] < |s.disk|
            && Next(g, s, e) ==
               s.(disk := s.disk[s.lh[t] := s.disk[g.logStart + 1 + t]],
                  dirty := s.dirty - {s.lh[t]},
                  pc := if s.pc.Installing? then Installing(t + 1) else Recovering(t + 1))
  {
    hide Inv;
    EntryOnDisk(g, base, s);
    if s.pc.Recovering? { assert s.dirty - {s.lh[s.pc.tail]} == s.dirty; }
  }

  /** While entries are being copied home, each has its slot and its home on the disk. */
  lemma EntryOnDisk(g: Geometry, base: seq<Block>, s: State)
    requires Inv(g, base, s) && (s.pc.Installing? || s.pc.Recovering?) && s.pc.tail < |s.lh|
    ensures g.logStart + 1 + s.pc.tail < |s.disk| && s.lh[s.pc.tail] < |s.disk|
    ensures s.pc.Recovering? ==> s.dirty == map[]
  {
    hide ApplyGroups, GroupsOk, CacheOk, Atomic;
    assert g.Home(Header(g, s.disk[g.logStart])[s.pc.tail]);
  }

  lemma CommitHeadEffect(g: Geometry, base: seq<Block>, s: State)
    requires Inv(g, base, s) && s.pc == Logging(|s.lh|)
    ensures Enabled(g, s, WriteHead)
    ensures Next(g, s, WriteHead) ==
            s.(disk := s.disk[g.logStart := EncodeHeader(s.disk[g.logStart], s.lh)],
               pc := Installing(0), committed := s.committed + [s.open], open := [])
  {
  }

  lemma EraseEffect(g: Geometry, base: seq<Block>, s: State)
    requires Inv(g, base, s) && (s.pc == Installing(|s.lh|) || s.pc == Recovering(|s.lh|))
    ensures var e := if s.pc.Installing? then EraseHead else RecoverErase;
            && Enabled(g, s, e)
            && Next(g, s, e) ==
               s.(disk := s.disk[g.logStart := EncodeHeader(s.disk[g.logStart], [])],
                  lh := [], pc := if s.pc.Installing? then Erased else Serving)
  {
  }

  lemma HeadReady(g: Geometry, base: seq<Block>, s: State)
    requires Inv(g, base, s)
    ensures g.logStart < |s.disk| && |s.disk[g.logStart]| == g.words && g.logCap + 1 < g.words
  {
  }
}
