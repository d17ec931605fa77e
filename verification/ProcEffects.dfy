/** What each call of proc.c does to the whole process table, entry by entry and field by field, and what follows
    over runs: pids are never shared, and an entry moves through its states only in the ways it should. */
module ProcEffects {
  import opened Common
  import opened ProcTable

  // ---------------------------------------------------------------- kill and wakeup

  /** Entry `i` is the first with that pid. */
  predicate IsFirst(procs: seq<Proc>, pid: nat, i: nat) {
    i < |procs| && procs[i].pid == pid && forall j :: 0 <= j < i ==> procs[j].pid != pid
  }

  predicate SleepsOn(q: Proc, c: Chan) { q.state == Sleeping && q.chan == Some(c) }

  /** `r` is `q` marked as killed, and made runnable if it slept. */
  predicate KilledFrom(q: Proc, r: Proc) {
    && r == q.(killed := true, state := r.state) && r.state != Sleeping
    && (if q.state == Sleeping then r.state == Runnable else r.state == q.state)
  }

  /** kill marks the first entry with the pid, which is then not asleep, and changes nothing else. */
  lemma KillMarksAndWakes(s: State, e: Event)
    requires Enabled(s, e) && e.Kill?
    ensures var s' := Next(s, e);
            && s' == s.(procs := s'.procs) && |s'.procs| == |s.procs|
            && forall i :: 0 <= i < |s.procs| ==>
                 if IsFirst(s.procs, e.pid, i) then KilledFrom(s.procs[i], s'.procs[i])
                 else s'.procs[i] == s.procs[i]
  {
    var i := FirstWithPid(s.procs, e.pid, 0);
    forall j | 0 <= j < |s.procs| ensures IsFirst(s.procs, e.pid, j) <==> j == i {
      assert j < i ==> s.procs[j].pid != e.pid;
    }
  }

  /** wakeup makes every sleeper on the channel runnable, and changes nothing else. */
  lemma WakeupWakesExactly(s: State, e: Event)
    requires Enabled(s, e) && e.Wakeup?
    ensures var s' := Next(s, e);
            && s' == s.(procs := s'.procs) && |s'.procs| == |s.procs|
            && forall i :: 0 <= i < |s.procs| ==>
                 s'.procs[i] == if SleepsOn(s.procs[i], Other(e.n)) then s.procs[i].(state := Runnable)
                                else s.procs[i]
  {
  }

  // ---------------------------------------------------------------- fork, exit and wait

  /** fork succeeds exactly with a free entry and both allocations.  The first free entry is then a runnable child
      of the caller with a new pid and the new memory; a fork that fails leaves the entry free. */
  lemma ForkMakesAChild(s: State, e: Event, i: nat)
    requires Enabled(s, e) && e.Fork? && i < |s.procs| && EntriesOk(s)
    ensures var s', q, r := Next(s, e), s.procs[i], Next(s, e).procs[i];
            var free := q.state == Unused && forall j :: 0 <= j < i ==> s.procs[j].state != Unused;
            && s'.cpus == s.cpus && s'.pt == s.pt && s'.init == s.init
            && (!free ==> r == q)
            && (free ==> s'.nextpid == s.nextpid + 1 && r.pid == s.nextpid && r.killed == q.killed)
            && (free && e.stack.Some? && e.space.Some? ==>
                  && r.state == Runnable && r.pc == YieldOff && r.parent == Some(s.cpus[e.k].p)
                  && r.kstack == e.stack && r.pgdir == e.space.value
                  && s'.live == s.live + {e.stack.value, e.space.value})
            && (free && !(e.stack.Some? && e.space.Some?) ==>
                  && r.state == Unused && r.pc == Nowhere && r.parent == None && r.kstack == None && s'.live == s.live
                  && r.pgdir == if e.stack.Some? then 0 else q.pgdir)
  {
    assert EntryOk(s.procs[i], i);
    var f := FirstUnused(s.procs, 0);
    assert i < f ==> s.procs[i].state != Unused;
    assert f < i ==> s.procs[f].state == Unused;
  }

  /** exit makes the caller a zombie and hands its children to init.  Its parent wakes if it waits, and so does
      init if it gets a zombie; no other entry changes. */
  lemma ExitEndsTheCaller(s: State, e: Event, i: nat)
    requires Enabled(s, e) && e.Exit? && i < |s.procs| && EntriesOk(s) && TreeOk(s)
    ensures var s', p, q, r := Next(s, e), s.cpus[e.k].p, s.procs[i], Next(s, e).procs[i];
            var wakes := || (s.procs[p].parent.Some? && SleepsOn(q, WaitOn(s.procs[p].parent.value)))
                         || (HasZombieKid(s.procs, p) && SleepsOn(q, WaitOn(s.init)));
            && s' == s.(procs := s'.procs, pt := Some(e.k))
            && (i == p ==> r == q.(state := Zombie, pc := ExitSched))
            && (i != p ==> r == q.(parent := if q.parent == Some(p) then Some(s.init) else q.parent,
                                   state := if wakes then Runnable else q.state))
  {
    var p := s.cpus[e.k].p;
    assert EntryOk(s.procs[p], p) && KinOk(s, p) && KinOk(s, i);
    var a := if s.procs[p].parent.Some? then WakeAll(s.procs, WaitOn(s.procs[p].parent.value)) else s.procs;
    assert HasZombieKid(a, p) <==> HasZombieKid(s.procs, p) by {
      forall j | 0 <= j < |a|
        ensures a[j].parent == s.procs[j].parent && (a[j].state == Zombie <==> s.procs[j].state == Zombie)
      {
      }
    }
  }

  /** A pass of wait takes the first zombie child out of the table and frees its memory, or returns without one, or
      goes to sleep until a child exits. */
  lemma WaitReapsOrSleeps(s: State, e: Event, i: nat)
    requires Enabled(s, e) && e.Wait? && i < |s.procs| && EntriesOk(s) && TreeOk(s)
    ensures var s', p, q, r := Next(s, e), s.cpus[e.k].p, s.procs[i], Next(s, e).procs[i];
            var zombie := q.parent == Some(p) && q.state == Zombie
                          && forall j :: 0 <= j < i ==> !(s.procs[j].parent == Some(p) && s.procs[j].state == Zombie);
            var kids := exists j :: 0 <= j < |s.procs| && s.procs[j].parent == Some(p);
            var sleeps := !HasZombieKid(s.procs, p) && kids && !s.procs[p].killed;
            && s' == s.(procs := s'.procs, pt := s'.pt, live := s'.live)
            && s'.pt == (if sleeps then Some(e.k) else None)
            && (zombie ==>
                  && r == q.(state := Unused, pid := 0, parent := None, killed := false, kstack := None, pc := Nowhere)
                  && s'.live == s.live - (if q.kstack.Some? then {q.kstack.value} else {}) - {q.pgdir})
            && (!HasZombieKid(s.procs, p) ==> s'.live == s.live)
            && (!zombie && i != p ==> r == q)
            && (i == p ==> r == if sleeps then q.(state := Sleeping, chan := Some(WaitOn(p)), pc := WaitSched)
                                else q.(chan := None, pc := User))
  {
    var p := s.cpus[e.k].p;
    var z := FirstZombieChild(s.procs, p, 0);
    assert EntryOk(s.procs[p], p) && KinOk(s, p) && KinOk(s, i);
    assert HasZombieKid(s.procs, p) <==> z < |s.procs|;
    assert i < z ==> !(s.procs[i].parent == Some(p) && s.procs[i].state == Zombie);
    assert z < i ==> s.procs[z].parent == Some(p) && s.procs[z].state == Zombie;
  }

  // ---------------------------------------------------------------- the scheduler

  /** A scheduler passes over an entry only if that is not runnable, runs exactly the entry it is at, ends its pass
      only behind the last one, and goes on behind a process that switched out. */
  lemma ScanSkipsNobody(s: State, e: Event, k: nat)
    requires Enabled(s, e) && k < |s.cpus| && k < |Next(s, e).cpus|
    ensures var s' := Next(s, e);
            match (s.cpus[k], s'.cpus[k])
            case (Scan(i), Scan(j)) => j == i || (j == i + 1 && i < |s.procs| && s.procs[i].state != Runnable)
            case (Scan(i), Exec(p)) => p == i < |s.procs| && s.procs[i].state == Runnable
            case (Scan(i), Idle) => i >= |s.procs|
            case (Exec(p), Scan(j)) => j == p + 1
            case (Idle, Scan(j)) => j == 0
            case (a, b) => a == b
  {
  }

  /** The scheduler's own step. */
  function SchedContinue(s: State, k: nat): Event
    requires k < |s.cpus| && !s.cpus[k].Exec?
  {
    match s.cpus[k]
    case Idle => SchedAcquire(k)
    case Scan(i) =>
      if i >= |s.procs| then SchedRelease(k) else if s.procs[i].state == Runnable then SchedSwitch(k) else SchedSkip(k)
  }

  /** A scheduler goes on, unless it spins on ptable.lock: through the table entry by entry, running each one that is
      runnable, and back to the start. */
  lemma SchedulerGoesOn(s: State, k: nat)
    requires k < |s.cpus| && !s.cpus[k].Exec? && (s.cpus[k].Idle? ==> s.pt == None)
    ensures var e := SchedContinue(s, k);
            && Enabled(s, e) && k < |Next(s, e).cpus|
            && match (s.cpus[k], Next(s, e).cpus[k])
               case (Idle, Scan(j)) => j == 0
               case (Scan(i), Scan(j)) => j == i + 1 && i < |s.procs| && s.procs[i].state != Runnable
               case (Scan(i), Exec(p)) => p == i < |s.procs| && s.procs[i].state == Runnable
               case (Scan(i), Idle) => i >= |s.procs|
               case _ => false
  {
  }

  /** A running process can go on: out to the scheduler, back from it, or, when ptable.lock is free, into any call;
      only init cannot exit. */
  lemma ProcessGoesOn(s: State, k: nat, n: nat)
    requires CpusOk(s) && Runs(s, k)
    ensures var p := s.cpus[k].p;
            match s.procs[p].pc
            case User =>
              s.pt == None ==>
                && Enabled(s, Fork(k, None, None)) && Enabled(s, Wait(k)) && Enabled(s, Yield(k))
                && Enabled(s, SleepOn(k, n)) && Enabled(s, Wakeup(k, n)) && Enabled(s, Kill(k, n))
                && (Enabled(s, Exit(k)) <==> p != s.init)
            case WaitBack => Enabled(s, Wait(k))
            case SleepBack => Enabled(s, Resume(k))
            case YieldBack => Enabled(s, Resume(k))
            case _ => Enabled(s, SwitchOut(k))
  {
    assert OnCpu(s.procs[s.cpus[k].p].pc);
    if s.procs[s.cpus[k].p].pc == User && s.pt == None {
      UserCanCall(s, k, n);
    }
  }

  lemma UserCanCall(s: State, k: nat, n: nat)
    requires Runs(s, k) && s.procs[s.cpus[k].p].pc == User && s.pt == None
    ensures Enabled(s, Fork(k, None, None)) && Enabled(s, Wait(k)) && Enabled(s, Yield(k))
    ensures Enabled(s, SleepOn(k, n)) && Enabled(s, Wakeup(k, n)) && Enabled(s, Kill(k, n))
    ensures Enabled(s, Exit(k)) <==> s.cpus[k].p != s.init
  {
  }

  // ---------------------------------------------------------------- pids

  /** No two entries have the same pid, but for the 0 of free ones, and the next pid is new. */
  predicate PidsOk(s: State) {
    && s.nextpid > 0
    && (forall i :: 0 <= i < |s.procs| ==> s.procs[i].pid < s.nextpid && (InUse(s.procs[i]) ==> s.procs[i].pid > 0))
    && forall i, j :: 0 <= i < j < |s.procs| && s.procs[i].pid > 0 ==> s.procs[i].pid != s.procs[j].pid
  }

  /** How the pid of an entry can change. */
  ghost predicate PidMoves(s: State, s': State, i: nat)
    requires i < |s.procs| == |s'.procs|
  {
    var q, r := s.procs[i], s'.procs[i];
    || (r.pid == q.pid && (InUse(r) ==> InUse(q)))
    || (r.pid == 0 && !InUse(r))
    || (r.pid == s.nextpid && s'.nextpid == s.nextpid + 1
        && forall j :: 0 <= j < |s.procs| && j != i ==> s'.procs[j].pid == s.procs[j].pid)
  }

  lemma PidStep(s: State, e: Event, i: nat)
    requires EntriesOk(s) && Enabled(s, e) && i < |s.procs|
    ensures var s' := Next(s, e);
            && |s'.procs| == |s.procs| && (s'.nextpid == s.nextpid || s'.nextpid == s.nextpid + 1)
            && PidMoves(s, s', i)
  {
    hide Next, EntryOk, FirstUnused;
    if e.Fork? {
      ForkEffect(s, e);
      ForkMakesAChild(s, e, i);
    } else if e.Exit? {
      ExitEffect(s, e);
    } else if e.Wait? && Victim(s, e) < |s.procs| {
      ReapEffect(s, e);
    } else {
      KinFrame(s, e);
    }
  }

  lemma PidsKept(s: State, s': State)
    requires PidsOk(s) && |s'.procs| == |s.procs| && (s'.nextpid == s.nextpid || s'.nextpid == s.nextpid + 1)
    requires forall i :: 0 <= i < |s.procs| ==> PidMoves(s, s', i)
    ensures PidsOk(s')
  {
    assert forall i :: 0 <= i < |s.procs| ==> PidMoves(s, s', i) ==> s'.procs[i].pid < s'.nextpid;
    forall i | 0 <= i < |s'.procs| ensures InUse(s'.procs[i]) ==> s'.procs[i].pid > 0 {
      assert PidMoves(s, s', i);
    }
    forall i, j | 0 <= i < j < |s'.procs| && s'.procs[i].pid > 0 ensures s'.procs[i].pid != s'.procs[j].pid {
      assert PidMoves(s, s', i) && PidMoves(s, s', j);
    }
  }

  /** Over every run no two processes have the same pid. */
  lemma {:induction false} PidsAreDistinct(s: State, es: seq<Event>)
    requires Init(s) && Feasible(s, es)
    ensures PidsOk(After(s, es))
  {
    if es != [] {
      var z, e := After(s, es[..|es| - 1]), es[|es| - 1];
      PidsAreDistinct(s, es[..|es| - 1]);
      RunInv(s, es[..|es| - 1]);
      assert Enabled(z, e);
      assert z.init < |z.procs| && EntriesOk(z);
      hide Next, Enabled, Inv, EntriesOk, Init, After, Feasible, PidMoves, PidsOk;
      PidStep(z, e, z.init);
      forall i | 0 <= i < |z.procs| ensures PidMoves(z, Next(z, e), i) { PidStep(z, e, i); }
      PidsKept(z, Next(z, e));
    }
  }

  /** So kill of a pid in use marks that process and no other. */
  lemma KillFindsItsProcess(s: State, es: seq<Event>, e: Event, i: nat)
    requires Init(s) && Feasible(s, es) && Enabled(After(s, es), e) && e.Kill?
    requires i < |After(s, es).procs| && InUse(After(s, es).procs[i]) && After(s, es).procs[i].pid == e.pid
    ensures var z, z' := After(s, es), Next(After(s, es), e);
            && |z'.procs| == |z.procs| && KilledFrom(z.procs[i], z'.procs[i])
            && forall j :: 0 <= j < |z.procs| && j != i ==> z'.procs[j] == z.procs[j]
  {
    PidsAreDistinct(s, es);
    var z := After(s, es);
    KillMarksAndWakes(z, e);
    hide Next, Enabled, After, Feasible, KilledFrom;
    assert forall j :: 0 <= j < |z.procs| ==> (IsFirst(z.procs, e.pid, j) <==> j == i);
  }

  // ---------------------------------------------------------------- the life of an entry

  /** The process taking the step is entry `i`. */
  predicate Itself(s: State, e: Event, i: nat) { Runs(s, e.k) && s.cpus[e.k].p == i }

  /** The ways entry `i` may go from one state to another. */
  predicate Lives(s: State, e: Event, i: nat, q: Proc, r: Proc)
    requires Enabled(s, e)
  {
    match (q.state, r.state)
    case (Unused, Runnable) => e.Fork? && r.parent == Some(s.cpus[e.k].p)
    case (Sleeping, Runnable) =>
      || (e.Kill? && q.pid == e.pid)
      || (e.Wakeup? && q.chan == Some(Other(e.n)))
      || (e.Exit? && q.chan.Some? && q.chan.value.WaitOn?)
    case (Runnable, Running) => e.SchedSwitch? && s.cpus[e.k] == Scan(i)
    case (Running, Runnable) => e.Yield? && Itself(s, e, i)
    case (Running, Sleeping) =>
      Itself(s, e, i) && ((e.SleepOn? && r.chan == Some(Other(e.n))) || (e.Wait? && r.chan == Some(WaitOn(i))))
    case (Running, Zombie) => e.Exit? && Itself(s, e, i)
    case (Zombie, Unused) => e.Wait? && q.parent == Some(s.cpus[e.k].p)
    case (Sleeping, Sleeping) => r.chan == q.chan
    case (a, b) => a == b
  }

  /** Over every run an entry goes from state to state only in these ways: a process runs only when the scheduler
      picks it, sleeps, yields or exits only by its own call, wakes only by kill, by a wakeup on its channel or by
      a child's exit, and leaves the table only by its parent's wait. */
  lemma LifeCycle(s: State, es: seq<Event>, e: Event, i: nat)
    requires Init(s) && Feasible(s, es) && Enabled(After(s, es), e) && i < |After(s, es).procs|
    ensures var z, z' := After(s, es), Next(After(s, es), e);
            i < |z'.procs| && Lives(z, e, i, z.procs[i], z'.procs[i])
  {
    RunInv(s, es);
    LifeStep(After(s, es), e, i);
  }

  lemma LifeStep(s: State, e: Event, i: nat)
    requires Inv(s) && Enabled(s, e) && i < |s.procs|
    ensures i < |Next(s, e).procs| && Lives(s, e, i, s.procs[i], Next(s, e).procs[i])
  {
    if e.Fork? {
      ForkMakesAChild(s, e, i);
      ForkEffect(s, e);
    } else if e.Exit? {
      LifeOfExit(s, e, i);
    } else if e.Wait? {
      LifeOfWait(s, e, i);
    } else if e.Kill? {
      KillMarksAndWakes(s, e);
    } else {
      LifeElse(s, e, i);
    }
  }

  lemma LifeOfExit(s: State, e: Event, i: nat)
    requires EntriesOk(s) && TreeOk(s) && Enabled(s, e) && i < |s.procs| && e.Exit?
    ensures i < |Next(s, e).procs| && Lives(s, e, i, s.procs[i], Next(s, e).procs[i])
  {
    ExitEffect(s, e);
    ExitEndsTheCaller(s, e, i);
    hide Next, EntriesOk, TreeOk, HasZombieKid;
  }

  lemma LifeOfWait(s: State, e: Event, i: nat)
    requires EntriesOk(s) && TreeOk(s) && Enabled(s, e) && i < |s.procs| && e.Wait?
    ensures i < |Next(s, e).procs| && Lives(s, e, i, s.procs[i], Next(s, e).procs[i])
  {
    assert EntryOk(s.procs[s.cpus[e.k].p], s.cpus[e.k].p);
    assert |Next(s, e).procs| == |s.procs|;
    WaitReapsOrSleeps(s, e, i);
    hide Next, EntriesOk, TreeOk, HasKids, HasZombieKid;
  }

  lemma LifeElse(s: State, e: Event, i: nat)
    requires EntriesOk(s) && Enabled(s, e) && i < |s.procs| && !e.Fork? && !e.Exit? && !e.Wait? && !e.Kill?
    ensures i < |Next(s, e).procs| && Lives(s, e, i, s.procs[i], Next(s, e).procs[i])
  {
    if Runs(s, e.k) {
      assert EntryOk(s.procs[s.cpus[e.k].p], s.cpus[e.k].p);
    }
  }

  // ---------------------------------------------------------------- ptable.lock

  /** ptable.lock, when taken, belongs to the scheduler or to the process running on its CPU. */
  predicate PtHeld(s: State) {
    s.pt.Some? ==>
      && s.pt.value < |s.cpus|
      && (s.cpus[s.pt.value].Scan? || (Runs(s, s.pt.value) && HoldsPt(s.procs[s.cpus[s.pt.value].p].pc)))
  }

  lemma PtHeldStep(s: State, e: Event)
    requires Inv(s) && PtHeld(s) && Enabled(s, e)
    ensures PtHeld(Next(s, e))
  {
    hide TreeOk, ReapOk, FramesOk;
    if Runs(s, e.k) {
      assert EntryOk(s.procs[s.cpus[e.k].p], s.cpus[e.k].p);
    }
  }

  /** Over every run ptable.lock, when taken, has a holder: no call leaves it taken. */
  lemma {:induction false} TableLockIsHeld(s: State, es: seq<Event>)
    requires Init(s) && Feasible(s, es)
    ensures PtHeld(After(s, es))
  {
    if es != [] {
      TableLockIsHeld(s, es[..|es| - 1]);
      RunInv(s, es[..|es| - 1]);
      hide Next, Enabled, Inv, PtHeld;
      PtHeldStep(After(s, es[..|es| - 1]), es[|es| - 1]);
    }
  }
}
