/** The log goes on: what the end of an operation starts, and that a commit, once started, can always be carried through
    and makes exactly the open writes durable. */
module LogProgress {
  import opened LogMachine

  predicate Committing(s: State) { s.pc.Logging? || s.pc.Installing? || s.pc.Erased? }

  /** The next step of the committing thread. */
  function CommitStep(s: State): Event
    requires Committing(s)
  {
    match s.pc
    case Logging(t) => if t < |s.lh| then WriteLogBlock else WriteHead
    case Installing(t) => if t < |s.lh| then InstallBlock else EraseHead
    case Erased => FinishCommit
  }

  /** How many steps it has left. */
  function StepsLeft(s: State): nat {
    match s.pc
    case Logging(t) => if t < |s.lh| then 2 * |s.lh| - t + 3 else |s.lh| + 3
    case Installing(t) => if t < |s.lh| then |s.lh| - t + 2 else 2
    case Erased => 1
    case _ => 0
  }

  /** The groups that are committed when it is through. */
  function Total(s: State): seq<Group> { if s.pc.Logging? then s.committed + [s.open] else s.committed }

  /** The end of an operation takes it off the outstanding ones; the last one starts the commit of all that was
      written, if anything was. */
  lemma EndStartsCommit(g: Geometry, s: State, i: nat)
    requires s.pc == Serving && i < |s.ops|
    ensures Enabled(g, s, EndOp(i))
    ensures var s' := Next(g, s, EndOp(i));
            && s' == s.(ops := s.ops[..i] + s.ops[i + 1..], pc := s'.pc)
            && (|s.ops| > 1 ==> s'.pc == Serving)
            && (|s.ops| == 1 && s.lh != [] ==> s'.pc == Logging(0))
            && (|s.ops| == 1 && s.lh == [] ==> s'.pc == Erased)
  {
  }

  /** What an operation is told no about, and that it is told no about nothing else. */
  lemma OperationGoesOn(g: Geometry, s: State, i: nat, id: nat, block: nat, data: Block)
    requires s.pc == Serving
    ensures Enabled(g, s, BeginOp(id)) <==> |s.lh| + (|s.ops| + 1) * g.maxOp <= g.logCap && id !in s.seen
    ensures i < |s.ops| && g.Home(block) && |data| == g.words ==>
              (Enabled(g, s, LogWrite(i, block, data)) <==> !Enabled(g, s, LogWritePanic(i)))
    ensures i < |s.ops| ==> (Enabled(g, s, LogWritePanic(i)) <==> g.LogFull(|s.lh|))
  {
  }

  /** After a panic there is nothing but a crash. */
  lemma PanicIsFinal(g: Geometry, s: State, i: nat, e: Event)
    requires Enabled(g, s, LogWritePanic(i)) && Enabled(g, Next(g, s, LogWritePanic(i)), e)
    ensures e == Crash
  {
  }

  /** Every write of the open transaction has its block in the header. */
  predicate OpenOk(s: State) {
    !s.pc.Panicked? ==> forall k :: 0 <= k < |s.open| ==> s.open[k].block in s.lh
  }

  lemma OpenStep(g: Geometry, base: seq<Block>, s: State, e: Event)
    requires Inv(g, base, s) && OpenOk(s) && Enabled(g, s, e)
    ensures OpenOk(Next(g, s, e))
  {
    hide CacheOk, InstallingOk, RecoveringOk, GroupsOk, Durable;
    if e.LogWrite? {
      var s' := Next(g, s, e);
      forall k | 0 <= k < |s'.open| ensures s'.open[k].block in s'.lh {
        assert k < |s.open| ==> s'.open[k] == s.open[k];
        assert e.block !in s.lh ==> s'.lh[|s.lh|] == e.block;
        assert forall b :: b in s.lh ==> b in s'.lh;
      }
    }
  }

  lemma {:induction false} RunOpen(g: Geometry, base: seq<Block>, disk: seq<Block>, es: seq<Event>)
    requires g.Ok() && Durable(g, disk, base) && Feasible(g, Boot(disk), es)
    ensures OpenOk(After(g, Boot(disk), es))
    decreases |es|
  {
    if es != [] {
      var es0 := es[..|es| - 1];
      RunOpen(g, base, disk, es0);
      RunInv(g, base, disk, es0);
      hide Inv, Next, Enabled, OpenOk, Durable;
      OpenStep(g, base, After(g, Boot(disk), es0), es[|es| - 1]);
    }
  }

  /** With nothing in the log the homes on disk have the effect of all committed groups. */
  lemma AtRest(g: Geometry, base: seq<Block>, s: State)
    requires Inv(g, base, s) && s.pc == Serving && s.lh == [] && s.open == []
    ensures SameHome(g, s.disk, ApplyGroups(base, s.committed))
  {
    assert CacheOk(g, base, s) && s.dirty == map[];
    assert Apply(Atomic(base, s), s.open) == Atomic(base, s);
  }

  /** A committing thread can take its next step, which brings it one nearer to the end and changes nothing about what
      will be committed. */
  lemma CommitGoesOn(g: Geometry, base: seq<Block>, s: State)
    requires Inv(g, base, s) && OpenOk(s) && Committing(s)
    ensures Enabled(g, s, CommitStep(s))
    ensures var s' := Next(g, s, CommitStep(s));
            && Inv(g, base, s') && OpenOk(s') && StepsLeft(s') == StepsLeft(s) - 1 && Total(s') == Total(s)
            && (Committing(s') || (s'.pc == Serving && s'.lh == [] && s'.open == []))
  {
    StepKeeps(g, base, s, CommitStep(s));
    OpenStep(g, base, s, CommitStep(s));
  }

  lemma {:induction false} CommitRuns(g: Geometry, base: seq<Block>, s0: State, es: seq<Event>)
    returns (more: seq<Event>)
    requires Feasible(g, s0, es) && Committing(After(g, s0, es))
    requires Inv(g, base, After(g, s0, es)) && OpenOk(After(g, s0, es))
    ensures Feasible(g, s0, es + more) && |more| == StepsLeft(After(g, s0, es))
    ensures var z := After(g, s0, es + more);
            Inv(g, base, z) && z.pc == Serving && z.lh == [] && z.open == [] && z.committed == Total(After(g, s0, es))
    decreases StepsLeft(After(g, s0, es))
  {
    hide Inv, Enabled, Next, After, Feasible, OpenOk;
    var z := After(g, s0, es);
    var e := CommitStep(z);
    CommitGoesOn(g, base, z);
    AfterSnoc(g, s0, es, e);
    if Committing(Next(g, z, e)) {
      var rest := CommitRuns(g, base, s0, es + [e]);
      more := [e] + rest;
      assert es + more == es + [e] + rest;
    } else {
      more := [e];
    }
  }

  /** From every reachable state in which a commit is under way it can be carried through.  Then exactly the writes of
      the open transaction have been added as one group, the log is empty, and every home block on disk has the effect
      of all committed groups. */
  lemma CommitCompletes(g: Geometry, base: seq<Block>, disk: seq<Block>, es: seq<Event>) returns (more: seq<Event>)
    requires g.Ok() && Durable(g, disk, base) && Feasible(g, Boot(disk), es) && Committing(After(g, Boot(disk), es))
    ensures Feasible(g, Boot(disk), es + more)
    ensures var s, z := After(g, Boot(disk), es), After(g, Boot(disk), es + more);
            && z.pc == Serving && z.committed == (if s.pc.Logging? then s.committed + [s.open] else s.committed)
            && z.lh == [] && z.open == [] && SameHome(g, z.disk, ApplyGroups(base, z.committed))
  {
    hide Inv, Enabled, Next, After, Feasible, OpenOk, Durable, SameHome;
    RunInv(g, base, disk, es);
    RunOpen(g, base, disk, es);
    more := CommitRuns(g, base, Boot(disk), es);
    AtRest(g, base, After(g, Boot(disk), es + more));
  }
}
