/**
 * Inodes and power failures.  What the inode cache writes reaches the disk for good only when the log
 * commits, and the log commits only between operations; a crash goes back to the last commit and loses
 * every in-memory inode.
 */
module InodeCrash {
  import opened Common
  import I = InodeCache
  import R = InodeRuns

  /** `saved` are the inodes as of the last commit. */
  datatype State = State(c: I.State, saved: seq<I.Dinode>)

  datatype Event =
    | Do(e: I.Event)
    | Commit
    | Crash(blank: seq<I.Slot>)   // `blank` are the slots after the reboot

  predicate BlankSlots(blank: seq<I.Slot>) { forall i :: 0 <= i < |blank| ==> blank[i].ref == 0 && !blank[i].busy }

  /** No operation that changes inodes is under way: files may be open, and locked for reading. */
  ghost predicate Resting(c: I.State) {
    c.allocs == map[] && forall t :: t in c.ptrs ==> c.ptrs[t].phase in {I.Idle, I.Filling, I.Locked}
  }

  ghost predicate Enabled(s: State, e: Event) {
    match e
    case Do(ie) => I.Enabled(s.c, ie)
    case Commit => Resting(s.c)
    case Crash(blank) => BlankSlots(blank)
  }

  ghost function Next(s: State, e: Event): State
    requires Enabled(s, e)
  {
    match e
    case Do(ie) => s.(c := I.Next(s.c, ie))
    case Commit => s.(saved := s.c.disk)
    case Crash(blank) => s.(c := I.State(blank, s.saved, map[], map[]))
  }

  ghost predicate Feasible(s: State, es: seq<Event>)
    decreases |es|, 0
  {
    es == [] || (Feasible(s, es[..|es| - 1]) && Enabled(After(s, es[..|es| - 1]), es[|es| - 1]))
  }

  ghost function After(s: State, es: seq<Event>): State
    requires Feasible(s, es)
    decreases |es|, 1
  {
    if es == [] then s else Next(After(s, es[..|es| - 1]), es[|es| - 1])
  }

  ghost predicate Boot(s: State) { I.Boot(s.c) && s.saved == s.c.disk }

  ghost predicate SavedOk(s: State) {
    |s.saved| == |s.c.disk| && forall x :: 0 <= x < |s.saved| && s.saved[x].typ == 0 ==> s.saved[x].nlink == 0
  }

  ghost predicate Inv(s: State) { I.Sound(s.c) && SavedOk(s) }

  lemma StepKeeps(s: State, e: Event)
    requires Inv(s) && Enabled(s, e)
    ensures Inv(Next(s, e)) && |Next(s, e).saved| == |s.saved|
  {
    match e
    case Do(ie) =>
      I.SoundStep(s.c, ie);
      I.SameDiskSize(s.c, ie);
    case Commit =>
    case Crash(blank) => I.BootSafe(Next(s, e).c);
  }

  lemma {:induction false} RunInv(s: State, es: seq<Event>)
    requires Inv(s) && Feasible(s, es)
    ensures Inv(After(s, es)) && |After(s, es).saved| == |s.saved|
    decreases |es|
  {
    hide Inv, Enabled, Next;
    if es != [] {
      RunInv(s, es[..|es| - 1]);
      StepKeeps(After(s, es[..|es| - 1]), es[|es| - 1]);
    }
  }

  lemma BootInv(s: State)
    requires Boot(s)
    ensures Inv(s)
  {
    I.BootSafe(s.c);
  }

  // ---------------------------------------------------------------------------------------------
  // Leaks

  /** Every iget is of a number that a name or a pointer leads to. */
  ghost predicate RealNames(s: State, es: seq<Event>)
    requires Feasible(s, es)
    decreases |es|
  {
    es == [] ||
    (RealNames(s, es[..|es| - 1])
     && var e := es[|es| - 1];
        e.Do? && e.e.Iget? ==> I.Reachable(After(s, es[..|es| - 1]).c, e.e.x))
  }

  /** Inode `x` is allocated and stays so whatever is done with the names there are, and through any further
      crash. */
  ghost predicate Leaked(s: State, x: nat) {
    && x < |s.c.disk| && s.c.disk[x].typ != 0
    && forall es :: Feasible(s, es) && RealNames(s, es) ==>
         x < |After(s, es).c.disk| && After(s, es).c.disk[x].typ != 0
  }

  /** Nobody refers to `x`, now or after a crash. */
  ghost predicate Forgotten(s: State, x: nat) {
    I.Orphan(s.c, x) && x < |s.saved| && s.saved[x].typ != 0 && s.saved[x].nlink == 0
  }

  lemma ForgottenStep(s: State, e: Event, x: nat)
    requires Inv(s) && Enabled(s, e) && Forgotten(s, x)
    requires e.Do? && e.e.Iget? ==> I.Reachable(s.c, e.e.x)
    ensures Forgotten(Next(s, e), x)
  {
    hide I.Sound;
    if e.Do? {
      I.OrphanStepIff(s.c, e.e, x);
    }
  }

  lemma {:induction false} ForgottenForever(s: State, es: seq<Event>, x: nat)
    requires Inv(s) && Feasible(s, es) && RealNames(s, es) && Forgotten(s, x)
    ensures Forgotten(After(s, es), x)
    decreases |es|
  {
    hide Inv, Enabled, Next, Forgotten;
    if es != [] {
      var es0 := es[..|es| - 1];
      ForgottenForever(s, es0, x);
      RunInv(s, es0);
      ForgottenStep(After(s, es0), es[|es| - 1], x);
    }
  }

  function Lift(es: seq<I.Event>): (r: seq<Event>)
    ensures |r| == |es| && forall i :: 0 <= i < |es| ==> r[i] == Do(es[i])
  {
    seq(|es|, i requires 0 <= i < |es| => Do(es[i]))
  }

  /** A run of the cache is a run here, and its names are real if its only iget comes first and is. */
  lemma {:induction false} Lifted(s: State, es: seq<I.Event>)
    requires I.Feasible(s.c, es)
    ensures Feasible(s, Lift(es)) && After(s, Lift(es)) == State(I.After(s.c, es), s.saved)
    ensures (forall k :: 1 <= k < |es| ==> !es[k].Iget?) && (es != [] && es[0].Iget? ==> I.Reachable(s.c, es[0].x)) ==>
              RealNames(s, Lift(es))
    decreases |es|
  {
    hide I.Enabled, I.Next, I.Reachable;
    if es != [] {
      var es0 := es[..|es| - 1];
      Lifted(s, es0);
      assert Lift(es)[..|es| - 1] == Lift(es0);
      assert |es| > 1 ==> es0 != [] && es0[0] == es[0];
    }
  }

  /** An inode with a link can still be unlinked and freed. */
  lemma LinkedCanBeFreed(s: State, x: nat)
    requires R.Quiet(s.c) && x < |s.c.disk| && s.c.disk[x].typ != 0 && s.c.disk[x].nlink > 0
    ensures !Leaked(s, x)
  {
    hide I.Feasible, I.After, I.Enabled, I.Next, Feasible, After, RealNames;
    var d := s.c.disk[x].(nlink := 0);
    R.Unlinks(s.c, 0, x);
    R.Releases(s.c.slots, x, d, s.c.disk[x := d], 0);
    R.Join(s.c, R.UnlinkRun(0, x, d), R.ReleaseRun(0));
    var es := R.UnlinkRun(0, x, d) + R.ReleaseRun(0);
    assert es[0] == I.Iget(0, x, 0);
    Lifted(s, es);
    assert Feasible(s, Lift(es)) && RealNames(s, Lift(es)) && After(s, Lift(es)).c.disk[x].typ == 0;
  }

  /** The exact condition: a crash at any point of any run leaks an inode if and only if the last commit
      has it allocated and without links. */
  lemma CrashLeaksIff(s: State, es: seq<Event>, blank: seq<I.Slot>, x: nat)
    requires Boot(s) && Feasible(s, es) && BlankSlots(blank) && |blank| >= 1 && x < |After(s, es).saved|
    ensures var z := After(s, es);
            Leaked(Next(z, Crash(blank)), x) <==> z.saved[x].typ != 0 && z.saved[x].nlink == 0
  {
    BootInv(s);
    RunInv(s, es);
    var z := After(s, es);
    CrashLeaks(z, blank, x);
  }

  lemma CrashLeaks(z: State, blank: seq<I.Slot>, x: nat)
    requires Inv(z) && BlankSlots(blank) && |blank| >= 1 && x < |z.saved|
    ensures Leaked(Next(z, Crash(blank)), x) <==> z.saved[x].typ != 0 && z.saved[x].nlink == 0
  {
    hide I.Sound, Feasible, After, RealNames;
    var c := Next(z, Crash(blank));
    StepKeeps(z, Crash(blank));
    if z.saved[x].typ != 0 && z.saved[x].nlink == 0 {
      forall es | Feasible(c, es) && RealNames(c, es)
        ensures x < |After(c, es).c.disk| && After(c, es).c.disk[x].typ != 0
      {
        ForgottenForever(c, es, x);
      }
    } else if z.saved[x].typ != 0 {
      LinkedCanBeFreed(c, x);
    }
  }

  // ---------------------------------------------------------------------------------------------
  // Runs that leak, and one that does not

  lemma Snoc(s: State, es: seq<Event>, e: Event)
    requires Feasible(s, es) && Enabled(After(s, es), e)
    ensures Feasible(s, es + [e]) && After(s, es + [e]) == Next(After(s, es), e)
  {
    assert (es + [e])[..|es|] == es;
  }

  lemma {:induction false} Join(s: State, es: seq<Event>, fs: seq<Event>)
    requires Feasible(s, es) && Feasible(After(s, es), fs)
    ensures Feasible(s, es + fs) && After(s, es + fs) == After(After(s, es), fs)
    decreases |fs|
  {
    hide Enabled, Next;
    var all := es + fs;
    if fs == [] {
      assert all == es;
    } else {
      Join(s, es, fs[..|fs| - 1]);
      assert all[..|all| - 1] == es + fs[..|fs| - 1];
    }
  }

  function UnlinkCommitted(d: I.Dinode, x: nat): seq<Event> { Lift(R.UnlinkRun(0, x, d)) + [Commit] }

  lemma UnlinkedAndCommitted(s: State, x: nat)
    requires Boot(s) && |s.c.slots| >= 1 && x < |s.saved| && s.c.disk[x].typ != 0
    ensures var d := s.c.disk[x].(nlink := 0);
            && Feasible(s, UnlinkCommitted(d, x))
            && After(s, UnlinkCommitted(d, x)) ==
               State(R.One(s.c.slots, R.HeldSlot(x, d), s.c.disk[x := d], 0, I.Idle), s.c.disk[x := d])
  {
    hide I.Feasible, I.After, I.Enabled, I.Next, Feasible, After, RealNames, R.UnlinkRun;
    var d := s.c.disk[x].(nlink := 0);
    R.Unlinks(s.c, 0, x);
    Lifted(s, R.UnlinkRun(0, x, d));
    Snoc(s, Lift(R.UnlinkRun(0, x, d)), Commit);
  }

  /** The failing run: a file is open, its last link goes, that commits, and power fails before the file is
      closed. */
  lemma UnlinkedOpenFileLeaks(s: State, x: nat, blank: seq<I.Slot>)
    requires Boot(s) && |s.c.slots| >= 1 && x < |s.saved| && s.c.disk[x].typ != 0 && BlankSlots(blank) && |blank| >= 1
    ensures var es := UnlinkCommitted(s.c.disk[x].(nlink := 0), x);
            Feasible(s, es) && Leaked(Next(After(s, es), Crash(blank)), x)
  {
    hide Feasible, After, Leaked, UnlinkCommitted, R.One;
    UnlinkedAndCommitted(s, x);
    CrashLeaksIff(s, UnlinkCommitted(s.c.disk[x].(nlink := 0), x), blank, x);
  }

  /** Another: it is closed and iput has freed the inode, but power fails before that commits. */
  lemma UncommittedCloseLeaks(s: State, x: nat, blank: seq<I.Slot>)
    requires Boot(s) && |s.c.slots| >= 1 && x < |s.saved| && s.c.disk[x].typ != 0 && BlankSlots(blank) && |blank| >= 1
    ensures var es := UnlinkCommitted(s.c.disk[x].(nlink := 0), x) + Lift(R.ReleaseRun(0));
            && Feasible(s, es) && x < |After(s, es).c.disk| && After(s, es).c.disk[x].typ == 0
            && Leaked(Next(After(s, es), Crash(blank)), x)
  {
    hide Feasible, After, Leaked, UnlinkCommitted, I.Feasible, I.After, I.Enabled, I.Next, R.ReleaseRun, RealNames;
    var d := s.c.disk[x].(nlink := 0);
    UnlinkedAndCommitted(s, x);
    var es0 := UnlinkCommitted(d, x);
    R.Releases(s.c.slots, x, d, s.c.disk[x := d], 0);
    Lifted(After(s, es0), R.ReleaseRun(0));
    Join(s, es0, Lift(R.ReleaseRun(0)));
    CrashLeaksIff(s, es0 + Lift(R.ReleaseRun(0)), blank, x);
  }

  /** And an allocation that does not commit is forgotten. */
  lemma UncommittedAllocIsUndone(s: State, x: nat, typ: nat, blank: seq<I.Slot>)
    requires Boot(s) && 1 <= x < |s.saved| && s.c.disk[x].typ == 0 && typ != 0 && BlankSlots(blank) && |blank| >= 1
    ensures var es := [Do(I.Ialloc(0, x, typ))];
            && Feasible(s, es) && x < |After(s, es).c.disk| && After(s, es).c.disk[x].typ == typ
            && !Leaked(Next(After(s, es), Crash(blank)), x)
  {
    var e := Do(I.Ialloc(0, x, typ));
    assert [e][..0] == [];
    assert Feasible(s, []);
    assert After(s, [e]) == Next(s, e);
    CrashLeaksIff(s, [e], blank, x);
  }
}
