/** fork, exit, wait, kill and the scheduler of proc.c, as a step machine for any table size and
    any number of CPUs.

    A step is a critical section of ptable.lock, cut where swtch moves the lock between a
    process and the scheduler of its CPU.  Kernel stacks and address spaces are frames; `live`
    is the set of frames handed out and not freed yet. */
module ProcTable {
  import opened Common

  datatype PState = Unused | Embryo | Sleeping | Runnable | Running | Zombie

  /** What a process sleeps on: its own table entry in wait, or something else. */
  datatype Chan = WaitOn(p: nat) | Other(n: nat)

  /** Where a process's kernel thread is.  The `Sched` positions are on the CPU, inside sched,
      before swtch; the `Off` positions are after it; the `Back` positions are switched in again
      and still hold ptable.lock from the scheduler. */
  datatype Pc =
    | Nowhere                                   // the entry is not in use
    | User                                      // running without ptable.lock
    | ExitSched | ExitOff
    | WaitSched | WaitOff | WaitBack
    | SleepSched | SleepOff | SleepBack
    | YieldSched | YieldOff | YieldBack         // also forkret's first run

  datatype Proc = Proc(
    state: PState,
    pid: nat,
    parent: Option<nat>,
    chan: Option<Chan>,
    killed: bool,
    kstack: Option<nat>,
    pgdir: nat,
    pc: Pc,
    at: nat           // CPU it was last switched in on
  )

  datatype Cpu = Idle | Scan(i: nat) | Exec(p: nat)

  datatype State = State(
    procs: seq<Proc>,
    cpus: seq<Cpu>,
    pt: Option<nat>,     // CPU holding ptable.lock
    nextpid: nat,
    init: nat,           // initproc
    live: set<nat>
  )

  datatype Event =
    | SchedAcquire(k: nat) | SchedSkip(k: nat) | SchedSwitch(k: nat) | SchedRelease(k: nat)
    | SwitchOut(k: nat)
    | Fork(k: nat, stack: Option<nat>, space: Option<nat>)   // what kalloc and copyuvm returned
    | Exit(k: nat)
    | Wait(k: nat)
    | Yield(k: nat)
    | SleepOn(k: nat, n: nat)
    | Resume(k: nat)                                         // end of yield, forkret or sleep
    | Wakeup(k: nat, n: nat)
    | Kill(k: nat, pid: nat)

  predicate OnCpu(pc: Pc) {
    !pc.Nowhere? && !pc.ExitOff? && !pc.WaitOff? && !pc.SleepOff? && !pc.YieldOff?
  }

  predicate HoldsPt(pc: Pc) {
    || pc.ExitSched? || pc.WaitSched? || pc.SleepSched? || pc.YieldSched?
    || pc.WaitBack? || pc.SleepBack? || pc.YieldBack?
  }

  // ---------------------------------------------------------------- table operations

  function WokenIf(q: Proc, c: Chan): Proc {
    if q.state == Sleeping && q.chan == Some(c) then q.(state := Runnable) else q
  }

  /** wakeup1. */
  function WakeAll(procs: seq<Proc>, c: Chan): (r: seq<Proc>)
    ensures |r| == |procs| && forall i :: 0 <= i < |r| ==> r[i] == WokenIf(procs[i], c)
  {
    seq(|procs|, i requires 0 <= i < |procs| => WokenIf(procs[i], c))
  }

  /** The first entry from `i` on with the given property, or |procs|. */
  function FirstUnused(procs: seq<Proc>, i: nat): (r: nat)
    requires i <= |procs|
    ensures i <= r <= |procs|
    ensures forall j :: i <= j < r ==> procs[j].state != Unused
    ensures r < |procs| ==> procs[r].state == Unused
    decreases |procs| - i
  {
    if i == |procs| || procs[i].state == Unused then i else FirstUnused(procs, i + 1)
  }

  function FirstZombieChild(procs: seq<Proc>, p: nat, i: nat): (r: nat)
    requires i <= |procs|
    ensures i <= r <= |procs|
    ensures forall j :: i <= j < r ==> !(procs[j].parent == Some(p) && procs[j].state == Zombie)
    ensures r < |procs| ==> procs[r].parent == Some(p) && procs[r].state == Zombie
    decreases |procs| - i
  {
    if i == |procs| || (procs[i].parent == Some(p) && procs[i].state == Zombie) then i
    else FirstZombieChild(procs, p, i + 1)
  }

  function FirstWithPid(procs: seq<Proc>, pid: nat, i: nat): (r: nat)
    requires i <= |procs|
    ensures i <= r <= |procs|
    ensures forall j :: i <= j < r ==> procs[j].pid != pid
    ensures r < |procs| ==> procs[r].pid == pid
    decreases |procs| - i
  {
    if i == |procs| || procs[i].pid == pid then i else FirstWithPid(procs, pid, i + 1)
  }

  predicate HasKids(procs: seq<Proc>, p: nat) {
    exists i :: 0 <= i < |procs| && procs[i].parent == Some(p)
  }

  predicate HasZombieKid(procs: seq<Proc>, p: nat) {
    exists i :: 0 <= i < |procs| && procs[i].parent == Some(p) && procs[i].state == Zombie
  }

  /** exit's loop: pass the children of `p` to init. */
  function Reparented(procs: seq<Proc>, p: nat, init: nat): (r: seq<Proc>)
    ensures |r| == |procs|
    ensures forall i :: 0 <= i < |r| ==>
              r[i] == if procs[i].parent == Some(p) then procs[i].(parent := Some(init)) else procs[i]
  {
    seq(|procs|, i requires 0 <= i < |procs| =>
      if procs[i].parent == Some(p) then procs[i].(parent := Some(init)) else procs[i])
  }

  /** exit, up to the call of sched. */
  function Exited(procs: seq<Proc>, p: nat, init: nat): (r: seq<Proc>)
    requires p < |procs|
    ensures |r| == |procs|
  {
    var a := if procs[p].parent.Some? then WakeAll(procs, WaitOn(procs[p].parent.value)) else procs;
    var b := Reparented(a, p, init);
    var c := if HasZombieKid(a, p) then WakeAll(b, WaitOn(init)) else b;
    c[p := c[p].(state := Zombie, pc := ExitSched)]
  }

  /** What wait leaves in the entry of a reaped child. */
  function Reaped(q: Proc): Proc {
    q.(state := Unused, pid := 0, parent := None, killed := false, kstack := None, pc := Nowhere)
  }

  /** fork with the results of its two allocations. */
  function Forked(procs: seq<Proc>, p: nat, i: nat, pid: nat,
                  stack: Option<nat>, space: Option<nat>): (r: seq<Proc>)
    requires p < |procs| && i < |procs|
    ensures |r| == |procs|
  {
    if stack.Some? && space.Some? then
      procs[i := procs[i].(state := Runnable, pid := pid, parent := Some(p),
                           kstack := stack, pgdir := space.value, pc := YieldOff)]
    else
      // allocproc has already taken a pid; the entry goes back to UNUSED
      procs[i := procs[i].(pid := pid, kstack := None,
                           pgdir := if stack.Some? then 0 else procs[i].pgdir)]
  }

  // ---------------------------------------------------------------- steps

  predicate Runs(s: State, k: nat) {
    k < |s.cpus| && s.cpus[k].Exec? && s.cpus[k].p < |s.procs|
  }

  predicate Enabled(s: State, e: Event) {
    match e
    case SchedAcquire(k) => k < |s.cpus| && s.cpus[k] == Idle && s.pt == None
    case SchedSkip(k) =>
      && k < |s.cpus| && s.cpus[k].Scan? && s.cpus[k].i < |s.procs|
      && s.procs[s.cpus[k].i].state != Runnable
    case SchedSwitch(k) =>
      && k < |s.cpus| && s.cpus[k].Scan? && s.cpus[k].i < |s.procs|
      && s.procs[s.cpus[k].i].state == Runnable
    case SchedRelease(k) => k < |s.cpus| && s.cpus[k].Scan? && s.cpus[k].i >= |s.procs|
    case _ => Runs(s, e.k) && ProcEnabled(s, s.cpus[e.k].p, e)
  }

  predicate ProcEnabled(s: State, p: nat, e: Event)
    requires p < |s.procs|
  {
    var q := s.procs[p];
    match e
    case SwitchOut(_) => q.pc.ExitSched? || q.pc.WaitSched? || q.pc.SleepSched? || q.pc.YieldSched?
    case Fork(_, stack, space) =>
      && q.pc == User && s.pt == None
      && (stack.Some? ==> stack.value !in s.live)
      && (space.Some? ==> space.value !in s.live && stack != space)
    case Exit(_) => q.pc == User && s.pt == None && p != s.init   // else panic "init exiting"
    case Wait(_) => (q.pc == User && s.pt == None) || q.pc == WaitBack
    case Yield(_) => q.pc == User && s.pt == None
    case SleepOn(_, _) => q.pc == User && s.pt == None
    case Resume(_) => q.pc == SleepBack || q.pc == YieldBack
    case Wakeup(_, _) => q.pc == User && s.pt == None
    case Kill(_, _) => q.pc == User && s.pt == None
    case _ => false
  }

  function SwitchedOut(pc: Pc): Pc {
    match pc
    case ExitSched => ExitOff
    case WaitSched => WaitOff
    case SleepSched => SleepOff
    case _ => YieldOff
  }

  function SwitchedIn(pc: Pc): Pc {
    match pc
    case WaitOff => WaitBack
    case SleepOff => SleepBack
    case _ => YieldBack
  }

  function Next(s: State, e: Event): State
    requires Enabled(s, e)
  {
    match e
    case SchedAcquire(k) => s.(cpus := s.cpus[k := Scan(0)], pt := Some(k))
    case SchedSkip(k) => s.(cpus := s.cpus[k := Scan(s.cpus[k].i + 1)])
    case SchedSwitch(k) =>
      var p := s.cpus[k].i;
      var q := s.procs[p];
      s.(cpus := s.cpus[k := Exec(p)],
         procs := s.procs[p := q.(state := Running, at := k, pc := SwitchedIn(q.pc))])
    case SchedRelease(k) => s.(cpus := s.cpus[k := Idle], pt := None)
    case _ => ProcNext(s, e.k, s.cpus[e.k].p, e)
  }

  function ProcNext(s: State, k: nat, p: nat, e: Event): State
    requires k < |s.cpus| && p < |s.procs| && ProcEnabled(s, p, e)
  {
    var q := s.procs[p];
    match e
    case SwitchOut(_) =>
      s.(procs := s.procs[p := q.(pc := SwitchedOut(q.pc))], cpus := s.cpus[k := Scan(p + 1)])
    case Fork(_, stack, space) =>
      var i := FirstUnused(s.procs, 0);
      if i == |s.procs| then s
      else
        s.(procs := Forked(s.procs, p, i, s.nextpid, stack, space), nextpid := s.nextpid + 1,
           live := if stack.Some? && space.Some? then s.live + {stack.value, space.value} else s.live)
    case Exit(_) => s.(procs := Exited(s.procs, p, s.init), pt := Some(k))
    case Wait(_) => Waited(s, k, p)
    case Yield(_) => s.(procs := s.procs[p := q.(state := Runnable, pc := YieldSched)], pt := Some(k))
    case SleepOn(_, n) =>
      s.(procs := s.procs[p := q.(state := Sleeping, chan := Some(Other(n)), pc := SleepSched)],
         pt := Some(k))
    case Resume(_) => s.(procs := s.procs[p := q.(chan := None, pc := User)], pt := None)
    case Wakeup(_, n) => s.(procs := WakeAll(s.procs, Other(n)))
    case Kill(_, pid) =>
      var i := FirstWithPid(s.procs, pid, 0);
      if i == |s.procs| then s
      else
        var t := s.procs[i];
        s.(procs := s.procs[i := t.(killed := true,
                                    state := if t.state == Sleeping then Runnable else t.state)])
  }

  /** One pass of wait's loop. */
  function Waited(s: State, k: nat, p: nat): State
    requires p < |s.procs|
  {
    var q := s.procs[p].(chan := None);
    var z := FirstZombieChild(s.procs, p, 0);
    if z < |s.procs| then
      var child := s.procs[z];
      var a := s.procs[z := Reaped(child)];
      s.(procs := a[p := a[p].(chan := None, pc := User)], pt := None,
         live := s.live - (if child.kstack.Some? then {child.kstack.value} else {}) - {child.pgdir})
    else if !HasKids(s.procs, p) || q.killed then
      s.(procs := s.procs[p := q.(pc := User)], pt := None)
    else
      s.(procs := s.procs[p := q.(state := Sleeping, chan := Some(WaitOn(p)), pc := WaitSched)],
         pt := Some(k))
  }

  predicate Feasible(s: State, es: seq<Event>)
    decreases |es|, 0
  {
    es == [] || (Feasible(s, es[..|es| - 1]) && Enabled(After(s, es[..|es| - 1]), es[|es| - 1]))
  }

  function After(s: State, es: seq<Event>): State
    requires Feasible(s, es)
    decreases |es|, 1
  {
    if es == [] then s else Next(After(s, es[..|es| - 1]), es[|es| - 1])
  }

  predicate Blank(q: Proc) {
    && q.state == Unused && q.parent == None && q.kstack == None && q.chan == None
    && q.pc == Nowhere && q.pid == 0 && !q.killed
  }

  /** After userinit: initproc ready to run, every other entry unused, CPUs in their schedulers. */
  predicate Init(s: State) {
    && s.init < |s.procs|
    && (forall k :: 0 <= k < |s.cpus| ==> s.cpus[k] == Idle)
    && (forall i :: 0 <= i < |s.procs| && i != s.init ==> Blank(s.procs[i]))
    && var q := s.procs[s.init];
    && q.state == Runnable && q.pc == YieldOff && q.parent == None && q.chan == None
    && q.pid == 1 && s.nextpid == 2 && q.kstack.Some? && q.kstack.value != q.pgdir
    && s.live == {q.kstack.value, q.pgdir} && s.pt == None
  }

  // ---------------------------------------------------------------- the invariant

  predicate InUse(q: Proc) { q.state != Unused }

  predicate CpusOk(s: State) {
    && (forall k :: 0 <= k < |s.cpus| && s.cpus[k].Exec? ==>
          s.cpus[k].p < |s.procs| && OnCpu(s.procs[s.cpus[k].p].pc) && s.procs[s.cpus[k].p].at == k)
    && (forall p :: 0 <= p < |s.procs| && OnCpu(s.procs[p].pc) ==>
          s.procs[p].at < |s.cpus| && s.cpus[s.procs[p].at] == Exec(p))
  }

  predicate PtOk(s: State) {
    && (forall p :: 0 <= p < |s.procs| && HoldsPt(s.procs[p].pc) ==> s.pt == Some(s.procs[p].at))
    && (forall k :: 0 <= k < |s.cpus| && s.cpus[k].Scan? ==> s.pt == Some(k))
  }

  predicate EntryOk(q: Proc, i: nat) {
    match q.pc
    case Nowhere => q.state == Unused && q.parent == None && q.kstack == None
    case User => q.state == Running && q.chan == None
    case ExitSched => q.state == Zombie
    case ExitOff => q.state == Zombie
    case WaitSched => q.state == Sleeping && q.chan == Some(WaitOn(i))
    case WaitOff => (q.state == Sleeping || q.state == Runnable) && q.chan == Some(WaitOn(i))
    case WaitBack => q.state == Running && q.chan == Some(WaitOn(i))
    case SleepSched => q.state == Sleeping && q.chan.Some? && q.chan.value.Other?
    case SleepOff => (q.state == Sleeping || q.state == Runnable) && q.chan.Some? && q.chan.value.Other?
    case SleepBack => q.state == Running
    case YieldSched => q.state == Runnable
    case YieldOff => q.state == Runnable
    case YieldBack => q.state == Running
  }

  predicate EntriesOk(s: State) {
    forall i :: 0 <= i < |s.procs| ==> EntryOk(s.procs[i], i)
  }

  /** Entry `i` in the family: unless it is init it has a parent, and a parent is a process that
      is not a zombie and has a smaller pid. */
  predicate KinOk(s: State, i: nat)
    requires i < |s.procs| && s.init < |s.procs|
  {
    var q := s.procs[i];
    && (InUse(q) ==> q.pid < s.nextpid)
    && (InUse(q) && i != s.init ==> q.parent.Some? && s.procs[s.init].pid < q.pid)
    && (q.parent.Some? ==>
          && q.parent.value < |s.procs|
          && var f := s.procs[q.parent.value];
          && InUse(f) && f.state != Zombie && f.pid < q.pid)
  }

  predicate TreeOk(s: State) {
    && s.init < |s.procs| && InUse(s.procs[s.init]) && s.procs[s.init].state != Zombie
    && s.procs[s.init].parent == None
    && forall i :: 0 <= i < |s.procs| ==> KinOk(s, i)
  }

  predicate AsleepInWait(s: State, f: nat) {
    f < |s.procs| && s.procs[f].state == Sleeping && s.procs[f].chan == Some(WaitOn(f))
  }

  /** A zombie's parent is not asleep in wait. */
  predicate ReapOk(s: State) {
    forall i :: 0 <= i < |s.procs| && s.procs[i].state == Zombie && s.procs[i].parent.Some? ==>
      !AsleepInWait(s, s.procs[i].parent.value)
  }

  predicate Owns(q: Proc, f: nat) {
    InUse(q) && (q.kstack == Some(f) || q.pgdir == f)
  }

  /** The frames handed out are exactly the stacks and address spaces of the processes in use,
      and each has one owner. */
  ghost predicate FramesOk(s: State) {
    && (forall i :: 0 <= i < |s.procs| && InUse(s.procs[i]) ==>
          s.procs[i].kstack.Some? && s.procs[i].kstack.value != s.procs[i].pgdir)
    && (forall i, f :: 0 <= i < |s.procs| && Owns(s.procs[i], f) ==> f in s.live)
    && (forall i, j, f ::
          0 <= i < |s.procs| && 0 <= j < |s.procs| && Owns(s.procs[i], f) && Owns(s.procs[j], f) ==>
            i == j)
    && (forall f :: f in s.live ==> exists i :: 0 <= i < |s.procs| && Owns(s.procs[i], f))
  }

  ghost predicate Inv(s: State) {
    CpusOk(s) && PtOk(s) && EntriesOk(s) && TreeOk(s) && ReapOk(s) && FramesOk(s)
  }

  // ---------------------------------------------------------------- preservation

  predicate IsSched(e: Event) {
    e.SchedAcquire? || e.SchedSkip? || e.SchedSwitch? || e.SchedRelease?
  }

  /** The child a Wait step reaps, or |procs|. */
  function Victim(s: State, e: Event): nat
    requires Enabled(s, e) && e.Wait?
  {
    FirstZombieChild(s.procs, s.cpus[e.k].p, 0)
  }

  /** Whoever takes a step under ptable.lock holds it alone: a zombie found by wait has left its
      kernel stack. */
  lemma VictimIsOff(s: State, e: Event)
    requires CpusOk(s) && PtOk(s) && EntriesOk(s) && Enabled(s, e) && e.Wait?
    requires Victim(s, e) < |s.procs|
    ensures s.procs[Victim(s, e)].pc == ExitOff
    ensures forall k :: 0 <= k < |s.cpus| ==> s.cpus[k] != Exec(Victim(s, e))
  {
    var z := Victim(s, e);
    assert EntryOk(s.procs[z], z);
  }

  // What a step does to an entry other than the acting process's own.

  predicate Bystander(q: Proc, r: Proc) {
    r == q || (q.state == Sleeping && r == q.(state := Runnable))
  }

  lemma ExitBystanders(s: State, p: nat, i: nat)
    requires p < |s.procs| && i < |s.procs| && i != p
    ensures var q, r := s.procs[i], Exited(s.procs, p, s.init)[i];
            && Bystander(q, r.(parent := q.parent))
            && r.parent == if q.parent == Some(p) then Some(s.init) else q.parent
  {
  }

  lemma EntryStep(s: State, e: Event, i: nat)
    requires Enabled(s, e) && !IsSched(e) && i < |s.procs| && i != s.cpus[e.k].p
    requires !e.Exit?
    requires e.Fork? ==> i != FirstUnused(s.procs, 0)
    requires e.Wait? ==> i != Victim(s, e)
    ensures |Next(s, e).procs| == |s.procs|
    ensures var q, r := s.procs[i], Next(s, e).procs[i];
            Bystander(q, r) || (e.Kill? && Bystander(q.(killed := true), r))
  {
  }

  /** The acting process's own entry before and after its step. */
  ghost predicate ActorKeeps(s: State, s': State, e: Event)
    requires Runs(s, e.k)
  {
    var p := s.cpus[e.k].p;
    && |s'.procs| == |s.procs| && |s'.cpus| == |s.cpus|
    && var q, r := s.procs[p], s'.procs[p];
    && r.at == q.at && r.pid == q.pid && r.kstack == q.kstack && r.pgdir == q.pgdir
    && r.state != Unused && EntryOk(r, p)
    && (r.state == Zombie <==> e.Exit? || q.state == Zombie)
    && (!e.Exit? || q.parent != Some(p) ==> r.parent == q.parent)
    && (!e.SwitchOut? ==> OnCpu(r.pc))
    && (HoldsPt(r.pc) ==> s'.pt == Some(e.k))
  }

  lemma ActorStep(s: State, e: Event)
    requires Enabled(s, e) && !IsSched(e) && EntriesOk(s)
    ensures Runs(s, e.k) && ActorKeeps(s, Next(s, e), e)
  {
    assert EntryOk(s.procs[s.cpus[e.k].p], s.cpus[e.k].p);
    if e.Exit? {
      ExitActor(s, e);
    } else if e.Wait? {
      WaitActor(s, e);
    } else {
      OtherActor(s, e);
    }
  }

  lemma ExitActor(s: State, e: Event)
    requires e.Exit? && Runs(s, e.k) && ProcEnabled(s, s.cpus[e.k].p, e)
    requires EntryOk(s.procs[s.cpus[e.k].p], s.cpus[e.k].p)
    ensures ActorKeeps(s, ProcNext(s, e.k, s.cpus[e.k].p, e), e)
  {
  }

  lemma WaitActor(s: State, e: Event)
    requires e.Wait? && Runs(s, e.k) && ProcEnabled(s, s.cpus[e.k].p, e)
    requires EntryOk(s.procs[s.cpus[e.k].p], s.cpus[e.k].p)
    ensures ActorKeeps(s, ProcNext(s, e.k, s.cpus[e.k].p, e), e)
  {
  }

  lemma OtherActor(s: State, e: Event)
    requires !e.Exit? && !e.Wait? && Runs(s, e.k) && ProcEnabled(s, s.cpus[e.k].p, e)
    requires EntryOk(s.procs[s.cpus[e.k].p], s.cpus[e.k].p)
    ensures ActorKeeps(s, ProcNext(s, e.k, s.cpus[e.k].p, e), e)
  {
  }

  /** A process that takes a step is alone under ptable.lock. */
  lemma AloneUnderPt(s: State, e: Event)
    requires CpusOk(s) && PtOk(s) && Enabled(s, e) && !IsSched(e)
    ensures forall i :: 0 <= i < |s.procs| && i != s.cpus[e.k].p ==> !HoldsPt(s.procs[i].pc)
    ensures forall k :: 0 <= k < |s.cpus| ==> !s.cpus[k].Scan?
  {
  }

  lemma ForkChild(s: State, e: Event)
    requires Enabled(s, e) && e.Fork? && EntriesOk(s) && FirstUnused(s.procs, 0) < |s.procs|
    ensures var i := FirstUnused(s.procs, 0);
            && i != s.cpus[e.k].p && |Next(s, e).procs| == |s.procs|
            && var q, r := s.procs[i], Next(s, e).procs[i];
            && q.pc == Nowhere && q.parent == None && q.kstack == None && r.at == q.at
            && EntryOk(r, i) && !OnCpu(r.pc) && r.pid == s.nextpid
            && (if e.stack.Some? && e.space.Some?
                then r.state == Runnable && r.parent == Some(s.cpus[e.k].p)
                     && r.kstack == e.stack && r.pgdir == e.space.value
                else r.state == Unused && r.parent == None)
  {
    var i := FirstUnused(s.procs, 0);
    assert EntryOk(s.procs[i], i) && EntryOk(s.procs[s.cpus[e.k].p], s.cpus[e.k].p);
  }

  /** Every entry but the actor's: it stays on or off its CPU and stays well formed. */
  lemma OthersStep(s: State, e: Event, i: nat)
    requires CpusOk(s) && PtOk(s) && EntriesOk(s) && Enabled(s, e) && !IsSched(e)
    requires i < |s.procs| && i != s.cpus[e.k].p
    ensures |Next(s, e).procs| == |s.procs|
    ensures var q, r := s.procs[i], Next(s, e).procs[i];
            r.at == q.at && OnCpu(r.pc) == OnCpu(q.pc) && !HoldsPt(r.pc) && EntryOk(r, i)
  {
    AloneUnderPt(s, e);
    assert EntryOk(s.procs[i], i);
    if e.Fork? && i == FirstUnused(s.procs, 0) {
      ForkChild(s, e);
    } else if e.Wait? && i == Victim(s, e) {
      VictimIsOff(s, e);
    } else if e.Exit? {
      ExitBystanders(s, s.cpus[e.k].p, i);
    } else {
      BystanderStep(s, e, i);
    }
  }

  lemma BystanderStep(s: State, e: Event, i: nat)
    requires Enabled(s, e) && !IsSched(e) && i < |s.procs| && i != s.cpus[e.k].p && !e.Exit?
    requires e.Fork? ==> i != FirstUnused(s.procs, 0)
    requires e.Wait? ==> i != Victim(s, e)
    requires EntryOk(s.procs[i], i) && !HoldsPt(s.procs[i].pc)
    ensures |Next(s, e).procs| == |s.procs|
    ensures var q, r := s.procs[i], Next(s, e).procs[i];
            r.at == q.at && OnCpu(r.pc) == OnCpu(q.pc) && !HoldsPt(r.pc) && EntryOk(r, i)
  {
    hide Next, Enabled;
    EntryStep(s, e, i);
  }

  lemma SchedStep(s: State, e: Event)
    requires CpusOk(s) && PtOk(s) && EntriesOk(s) && Enabled(s, e) && IsSched(e)
    ensures CpusOk(Next(s, e)) && PtOk(Next(s, e)) && EntriesOk(Next(s, e))
  {
    if e.SchedSwitch? {
      SchedSwitchStep(s, e);
    }
  }

  lemma SchedSwitchStep(s: State, e: Event)
    requires CpusOk(s) && PtOk(s) && EntriesOk(s) && Enabled(s, e) && e.SchedSwitch?
    ensures CpusOk(Next(s, e)) && PtOk(Next(s, e)) && EntriesOk(Next(s, e))
  {
    // a RUNNABLE process has left its CPU: had it not, it would hold ptable.lock
    var p := s.cpus[e.k].i;
    assert EntryOk(s.procs[p], p) && !OnCpu(s.procs[p].pc);
  }

  /** The CPUs after a process step: only SwitchOut changes one. */
  lemma CpuFrame(s: State, e: Event)
    requires Enabled(s, e) && !IsSched(e)
    ensures Next(s, e).cpus ==
            if e.SwitchOut? then s.cpus[e.k := Scan(s.cpus[e.k].p + 1)] else s.cpus
    ensures e.SwitchOut? ==> Next(s, e).pt == s.pt && !OnCpu(Next(s, e).procs[s.cpus[e.k].p].pc)
  {
  }

  lemma ControlStep(s: State, e: Event)
    requires CpusOk(s) && PtOk(s) && EntriesOk(s) && Enabled(s, e)
    ensures CpusOk(Next(s, e)) && PtOk(Next(s, e)) && EntriesOk(Next(s, e))
  {
    if IsSched(e) {
      SchedStep(s, e);
    } else {
      var p := s.cpus[e.k].p;
      var s' := Next(s, e);
      ActorStep(s, e);
      CpuFrame(s, e);
      AloneUnderPt(s, e);
      assert OnCpu(s.procs[p].pc) && s.procs[p].at == e.k;
      assert e.SwitchOut? ==> s.pt == Some(e.k);
      hide Next, Enabled, EntryOk;
      forall i | 0 <= i < |s.procs| && i != p
        ensures var q, r := s.procs[i], s'.procs[i];
                r.at == q.at && OnCpu(r.pc) == OnCpu(q.pc) && !HoldsPt(r.pc) && EntryOk(r, i)
      {
        OthersStep(s, e, i);
      }
    }
  }

  // ---------------------------------------------------------------- the family tree

  predicate SameKin(q: Proc, r: Proc) {
    && (q.state == Unused <==> r.state == Unused) && (q.state == Zombie <==> r.state == Zombie)
    && q.pid == r.pid && q.parent == r.parent && q.kstack == r.kstack && q.pgdir == r.pgdir
  }

  /** Steps other than fork, exit and a successful wait leave the family alone. */
  lemma KinFrame(s: State, e: Event)
    requires Enabled(s, e) && EntriesOk(s) && !e.Fork? && !e.Exit?
    requires e.Wait? ==> Victim(s, e) == |s.procs|
    ensures var s' := Next(s, e);
            && |s'.procs| == |s.procs| && s'.nextpid == s.nextpid && s'.init == s.init && s'.live == s.live
            && forall i :: 0 <= i < |s.procs| ==> SameKin(s.procs[i], s'.procs[i])
  {
    var s' := Next(s, e);
    if !IsSched(e) {
      assert s'.nextpid == s.nextpid && s'.init == s.init && s'.live == s.live;
      ActorStep(s, e);
      assert EntryOk(s.procs[s.cpus[e.k].p], s.cpus[e.k].p);
      hide Next;
      forall i | 0 <= i < |s.procs| ensures SameKin(s.procs[i], s'.procs[i]) {
        if i != s.cpus[e.k].p { EntryStep(s, e, i); }
      }
    }
  }

  lemma TreeFrame(s: State, s': State)
    requires TreeOk(s) && |s'.procs| == |s.procs| && s'.nextpid == s.nextpid && s'.init == s.init
    requires forall i :: 0 <= i < |s.procs| ==> SameKin(s.procs[i], s'.procs[i])
    ensures TreeOk(s')
  {
    forall i | 0 <= i < |s.procs| ensures KinOk(s', i) {
      assert KinOk(s, i);
    }
  }

  /** fork: nothing changes but the new entry. */
  lemma ForkEffect(s: State, e: Event)
    requires Enabled(s, e) && e.Fork? && EntriesOk(s)
    ensures var s' := Next(s, e);
            var i := FirstUnused(s.procs, 0);
            && |s'.procs| == |s.procs| && s'.init == s.init
            && (i == |s.procs| ==> s' == s)
            && (i < |s.procs| ==>
                  && s'.nextpid == s.nextpid + 1
                  && s'.live == s.live + if e.stack.Some? && e.space.Some?
                                         then {e.stack.value, e.space.value} else {})
            && forall j :: 0 <= j < |s.procs| && j != i ==> s'.procs[j] == s.procs[j]
  {
  }

  lemma UnusedHasNoParent(s: State, i: nat)
    requires EntriesOk(s) && i < |s.procs| && !InUse(s.procs[i])
    ensures s.procs[i].parent == None && s.procs[i].kstack == None
  {
    assert EntryOk(s.procs[i], i);
  }

  lemma TreeFork(s: State, e: Event)
    requires TreeOk(s) && EntriesOk(s) && Enabled(s, e) && e.Fork?
    ensures TreeOk(Next(s, e))
  {
    ForkEffect(s, e);
    if FirstUnused(s.procs, 0) < |s.procs| {
      ForkChild(s, e);
      var p := s.cpus[e.k].p;
      assert EntryOk(s.procs[p], p) && s.procs[p].pc == User;
      hide Next, Enabled, EntriesOk, EntryOk, FirstUnused;
      var s' := Next(s, e);
      forall i | 0 <= i < |s.procs| ensures KinOk(s', i) {
        assert KinOk(s, i) && KinOk(s, p);
      }
    }
  }

  /** exit: only the exiting process becomes a zombie, and its children go to init. */
  lemma ExitEffect(s: State, e: Event)
    requires Enabled(s, e) && e.Exit? && EntriesOk(s)
    ensures var s' := Next(s, e);
            var p := s.cpus[e.k].p;
            && |s'.procs| == |s.procs| && s'.nextpid == s.nextpid && s'.init == s.init
            && s'.live == s.live && p != s.init && s.procs[p].state == Running
            && (s'.procs[p].state == Zombie && InUse(s'.procs[p]))
            && forall i :: 0 <= i < |s.procs| ==>
                 var q, r := s.procs[i], s'.procs[i];
                 && r.pid == q.pid && r.kstack == q.kstack && r.pgdir == q.pgdir
                 && InUse(r) == InUse(q)
                 && (i != p ==> (r.state == Zombie <==> q.state == Zombie))
                 && r.parent == if q.parent == Some(p) then Some(s.init) else q.parent
  {
    var p := s.cpus[e.k].p;
    assert EntryOk(s.procs[p], p);
    forall i | 0 <= i < |s.procs| && i != p
      ensures var q, r := s.procs[i], Exited(s.procs, p, s.init)[i];
              && Bystander(q, r.(parent := q.parent))
              && r.parent == if q.parent == Some(p) then Some(s.init) else q.parent
    {
      ExitBystanders(s, p, i);
    }
  }

  lemma TreeExit(s: State, e: Event)
    requires TreeOk(s) && EntriesOk(s) && Enabled(s, e) && e.Exit?
    ensures TreeOk(Next(s, e))
  {
    ExitEffect(s, e);
    var s' := Next(s, e);
    hide Next, Enabled, EntriesOk;
    forall i | 0 <= i < |s.procs| ensures KinOk(s', i) {
      assert KinOk(s, i);
      if !InUse(s.procs[i]) { UnusedHasNoParent(s, i); }
    }
  }

  /** A successful wait: only the reaped entry changes its family. */
  lemma ReapEffect(s: State, e: Event)
    requires Enabled(s, e) && e.Wait? && EntriesOk(s) && Victim(s, e) < |s.procs|
    ensures var s' := Next(s, e);
            var z := Victim(s, e);
            && |s'.procs| == |s.procs| && s'.nextpid == s.nextpid && s'.init == s.init
            && s.procs[z].state == Zombie && s.procs[z].parent == Some(s.cpus[e.k].p)
            && s'.procs[z].state == Unused && s'.procs[z].parent == None && s'.procs[z].pid == 0
            && s'.live == s.live - (if s.procs[z].kstack.Some? then {s.procs[z].kstack.value} else {})
                          - {s.procs[z].pgdir}
            && (forall i :: 0 <= i < |s.procs| && i != z ==> SameKin(s.procs[i], s'.procs[i]))
            && (forall i :: 0 <= i < |s.procs| && i != z && i != s.cpus[e.k].p ==>
                  s'.procs[i] == s.procs[i])
  {
    var p := s.cpus[e.k].p;
    assert EntryOk(s.procs[p], p);
  }

  lemma TreeReap(s: State, e: Event)
    requires TreeOk(s) && EntriesOk(s) && Enabled(s, e) && e.Wait? && Victim(s, e) < |s.procs|
    ensures TreeOk(Next(s, e))
  {
    ReapEffect(s, e);
    var s' := Next(s, e);
    hide Next, Enabled, EntriesOk, Victim;
    forall i | 0 <= i < |s.procs| ensures KinOk(s', i) {
      assert KinOk(s, i);
    }
  }

  lemma TreeStep(s: State, e: Event)
    requires TreeOk(s) && EntriesOk(s) && Enabled(s, e)
    ensures TreeOk(Next(s, e))
  {
    if e.Fork? {
      TreeFork(s, e);
    } else if e.Exit? {
      TreeExit(s, e);
    } else if e.Wait? && Victim(s, e) < |s.procs| {
      TreeReap(s, e);
    } else {
      KinFrame(s, e);
      hide Next, Enabled, EntriesOk;
      TreeFrame(s, Next(s, e));
    }
  }

  // ---------------------------------------------------------------- exit and wait meet

  /** Only wait itself puts a process to sleep in wait, and only after finding no zombie. */
  lemma SleeperStep(s: State, e: Event, f: nat)
    requires Enabled(s, e) && EntriesOk(s) && AsleepInWait(Next(s, e), f)
    ensures AsleepInWait(s, f) || (e.Wait? && f == s.cpus[e.k].p && Victim(s, e) == |s.procs|)
  {
    if !IsSched(e) && f < |s.procs| {
      ActorStep(s, e);
      var p := s.cpus[e.k].p;
      assert EntryOk(s.procs[p], p);
      if f == p {
      } else if e.Exit? {
        ExitBystanders(s, p, f);
      } else if e.Fork? && f == FirstUnused(s.procs, 0) {
        ForkChild(s, e);
      } else if e.Wait? && f == Victim(s, e) {
      } else {
        EntryStep(s, e, f);
        hide Next;
      }
    }
  }

  /** exit wakes the parent of the new zombie and, for inherited zombies, init. */
  lemma ExitWakes(s: State, e: Event)
    requires Enabled(s, e) && e.Exit? && EntriesOk(s)
    ensures var p := s.cpus[e.k].p;
            && (s.procs[p].parent.Some? ==> !AsleepInWait(Next(s, e), s.procs[p].parent.value))
            && (HasZombieKid(s.procs, p) ==> !AsleepInWait(Next(s, e), s.init))
  {
    var p := s.cpus[e.k].p;
    assert EntryOk(s.procs[p], p);
    var a := if s.procs[p].parent.Some? then WakeAll(s.procs, WaitOn(s.procs[p].parent.value))
             else s.procs;
    if HasZombieKid(s.procs, p) {
      var i :| 0 <= i < |s.procs| && s.procs[i].parent == Some(p) && s.procs[i].state == Zombie;
      assert a[i].parent == Some(p) && a[i].state == Zombie;
    }
  }

  lemma ReapExit(s: State, e: Event)
    requires ReapOk(s) && TreeOk(s) && EntriesOk(s) && Enabled(s, e) && e.Exit?
    ensures ReapOk(Next(s, e))
  {
    var s' := Next(s, e);
    var p := s.cpus[e.k].p;
    ExitEffect(s, e);
    ExitWakes(s, e);
    hide Next, Enabled;
    forall i | 0 <= i < |s'.procs| && s'.procs[i].state == Zombie && s'.procs[i].parent.Some?
      ensures !AsleepInWait(s', s'.procs[i].parent.value)
    {
      var f := s'.procs[i].parent.value;
      if AsleepInWait(s', f) { SleeperStep(s, e, f); }
      assert KinOk(s, i);
    }
  }

  lemma ReapStep(s: State, e: Event)
    requires ReapOk(s) && TreeOk(s) && EntriesOk(s) && Enabled(s, e)
    ensures ReapOk(Next(s, e))
  {
    if e.Exit? {
      ReapExit(s, e);
    } else {
      var s' := Next(s, e);
      if e.Fork? {
        ForkEffect(s, e);
        if FirstUnused(s.procs, 0) < |s.procs| { ForkChild(s, e); }
      } else if e.Wait? && Victim(s, e) < |s.procs| {
        ReapEffect(s, e);
      } else {
        KinFrame(s, e);
      }
      hide Next, Enabled, EntriesOk, TreeOk;
      forall i | 0 <= i < |s'.procs| && s'.procs[i].state == Zombie && s'.procs[i].parent.Some?
        ensures !AsleepInWait(s', s'.procs[i].parent.value)
      {
        var f := s'.procs[i].parent.value;
        assert s.procs[i].state == Zombie && s.procs[i].parent == Some(f);
        if AsleepInWait(s', f) { SleeperStep(s, e, f); }
      }
    }
  }

  // ---------------------------------------------------------------- frames

  lemma FramesFrame(s: State, s': State)
    requires FramesOk(s) && |s'.procs| == |s.procs| && s'.live == s.live
    requires forall i :: 0 <= i < |s.procs| ==>
               && InUse(s.procs[i]) == InUse(s'.procs[i]) && s.procs[i].kstack == s'.procs[i].kstack
               && s.procs[i].pgdir == s'.procs[i].pgdir
    ensures FramesOk(s')
  {
    assert forall i, f :: 0 <= i < |s.procs| ==> Owns(s'.procs[i], f) == Owns(s.procs[i], f);
  }

  lemma FramesFork(s: State, e: Event)
    requires FramesOk(s) && EntriesOk(s) && Enabled(s, e) && e.Fork?
    ensures FramesOk(Next(s, e))
  {
    ForkEffect(s, e);
    var i := FirstUnused(s.procs, 0);
    if i < |s.procs| {
      ForkChild(s, e);
      var fresh_ := if e.stack.Some? && e.space.Some? then {e.stack.value, e.space.value} else {};
      assert fresh_ !! s.live && (e.stack.Some? && e.space.Some? ==> e.stack.value != e.space.value);
      var s' := Next(s, e);
      assert forall f :: Owns(s'.procs[i], f) <==> f in fresh_;
      assert !InUse(s.procs[i]);
      hide Next, Enabled, EntriesOk, EntryOk, FirstUnused;
      FramesAdded(s, s', i, fresh_);
    }
  }

  lemma FramesAdded(s: State, s': State, i: nat, added: set<nat>)
    requires FramesOk(s) && |s'.procs| == |s.procs| && i < |s.procs|
    requires s'.live == s.live + added && added !! s.live
    requires forall j :: 0 <= j < |s.procs| && j != i ==> s'.procs[j] == s.procs[j]
    requires !InUse(s.procs[i]) && forall f :: Owns(s'.procs[i], f) <==> f in added
    requires InUse(s'.procs[i]) ==> s'.procs[i].kstack.Some? && s'.procs[i].kstack.value != s'.procs[i].pgdir
    ensures FramesOk(s')
  {
    forall f | f in s'.live ensures exists j :: 0 <= j < |s'.procs| && Owns(s'.procs[j], f) {
      if f in s.live {
        var j :| 0 <= j < |s.procs| && Owns(s.procs[j], f);
        assert Owns(s'.procs[j], f);
      } else {
        assert Owns(s'.procs[i], f);
      }
    }
  }

  lemma FramesReap(s: State, e: Event)
    requires FramesOk(s) && EntriesOk(s) && Enabled(s, e) && e.Wait? && Victim(s, e) < |s.procs|
    ensures FramesOk(Next(s, e))
  {
    ReapEffect(s, e);
    var z := Victim(s, e);
    var s' := Next(s, e);
    hide Next, Enabled, EntriesOk, Victim;
    assert forall f :: Owns(s.procs[z], f) ==> f !in s'.live;
    assert forall f :: f in s.live && !Owns(s.procs[z], f) ==> f in s'.live;
    assert forall j, f :: 0 <= j < |s.procs| && j != z ==> Owns(s'.procs[j], f) == Owns(s.procs[j], f);
    forall f | f in s'.live ensures exists j :: 0 <= j < |s'.procs| && Owns(s'.procs[j], f) {
      var j :| 0 <= j < |s.procs| && Owns(s.procs[j], f);
      assert Owns(s'.procs[j], f);
    }
  }

  lemma FramesStep(s: State, e: Event)
    requires FramesOk(s) && EntriesOk(s) && Enabled(s, e)
    ensures FramesOk(Next(s, e))
  {
    if e.Fork? {
      FramesFork(s, e);
    } else if e.Wait? && Victim(s, e) < |s.procs| {
      FramesReap(s, e);
    } else {
      if e.Exit? { ExitEffect(s, e); } else { KinFrame(s, e); }
      hide Next, Enabled, EntriesOk;
      FramesFrame(s, Next(s, e));
    }
  }

  // ---------------------------------------------------------------- theorems

  lemma StepKeeps(s: State, e: Event)
    requires Inv(s) && Enabled(s, e)
    ensures Inv(Next(s, e))
  {
    hide Next, Enabled, CpusOk, PtOk, EntriesOk, TreeOk, ReapOk, FramesOk;
    ControlStep(s, e);
    TreeStep(s, e);
    ReapStep(s, e);
    FramesStep(s, e);
  }

  lemma InitInv(s: State)
    requires Init(s)
    ensures Inv(s)
  {
    assert Owns(s.procs[s.init], s.procs[s.init].pgdir);
    assert Owns(s.procs[s.init], s.procs[s.init].kstack.value);
  }

  lemma {:induction false} RunInv(s: State, es: seq<Event>)
    requires Init(s) && Feasible(s, es)
    ensures Inv(After(s, es))
  {
    if es == [] {
      InitInv(s);
    } else {
      RunInv(s, es[..|es| - 1]);
      hide Inv, Next;
      StepKeeps(After(s, es[..|es| - 1]), es[|es| - 1]);
    }
  }

  /** A CPU that runs a process runs it on a live kernel stack that no other process owns, and no other CPU
      runs it. */
  lemma OneCpuPerStack(s: State, es: seq<Event>, i: nat)
    requires Init(s) && Feasible(s, es) && i < |After(s, es).cpus| && After(s, es).cpus[i].Exec?
    ensures var t := After(s, es);
            var p := t.cpus[i].p;
            && p < |t.procs| && t.procs[p].kstack.Some? && t.procs[p].kstack.value in t.live
            && (forall j :: 0 <= j < |t.cpus| && j != i ==> t.cpus[j] != t.cpus[i])
            && (forall q :: 0 <= q < |t.procs| && q != p ==> !Owns(t.procs[q], t.procs[p].kstack.value))
  {
    RunInv(s, es);
    var t := After(s, es);
    var p := t.cpus[i].p;
    assert EntryOk(t.procs[p], p);
    assert Owns(t.procs[p], t.procs[p].kstack.value);
  }

  /** A zombie's parent is never left asleep in wait. */
  lemma NoMissedExit(s: State, es: seq<Event>, z: nat)
    requires Init(s) && Feasible(s, es) && z < |After(s, es).procs|
    requires After(s, es).procs[z].state == Zombie
    ensures var t := After(s, es);
            && t.procs[z].parent.Some? && t.procs[z].parent.value < |t.procs|
            && !AsleepInWait(t, t.procs[z].parent.value)
  {
    RunInv(s, es);
    assert KinOk(After(s, es), z);
  }

  /** The chain of parents from `p` ends at init. */
  predicate ReachesInit(procs: seq<Proc>, init: nat, p: nat)
    requires p < |procs|
    decreases procs[p].pid
  {
    || p == init
    || (&& procs[p].parent.Some? && procs[p].parent.value < |procs|
        && procs[procs[p].parent.value].pid < procs[p].pid
        && ReachesInit(procs, init, procs[p].parent.value))
  }

  lemma {:induction false} ChainToInit(s: State, p: nat)
    requires TreeOk(s) && p < |s.procs| && InUse(s.procs[p])
    ensures ReachesInit(s.procs, s.init, p)
    decreases s.procs[p].pid
  {
    assert KinOk(s, p);
    if p != s.init {
      ChainToInit(s, s.procs[p].parent.value);
    }
  }

  lemma ParentsReachInit(s: State, es: seq<Event>, p: nat)
    requires Init(s) && Feasible(s, es) && p < |After(s, es).procs| && InUse(After(s, es).procs[p])
    ensures ReachesInit(After(s, es).procs, After(s, es).init, p)
  {
    RunInv(s, es);
    ChainToInit(After(s, es), p);
  }

  /** When wait frees a child's stack and address space, both are live, no CPU is on that stack,
      nobody else owns them, and afterwards they are gone. */
  lemma ReapIsSafe(s: State, es: seq<Event>, e: Event)
    requires Init(s) && Feasible(s, es) && Enabled(After(s, es), e) && e.Wait?
    requires Victim(After(s, es), e) < |After(s, es).procs|
    ensures var t := After(s, es);
            var z := Victim(t, e);
            && t.procs[z].kstack.Some?
            && var stack, space := t.procs[z].kstack.value, t.procs[z].pgdir;
            && stack != space && stack in t.live && space in t.live
            && (forall k :: 0 <= k < |t.cpus| ==> t.cpus[k] != Exec(z))
            && (forall i :: 0 <= i < |t.procs| && i != z ==>
                  !Owns(t.procs[i], stack) && !Owns(t.procs[i], space))
            && Next(t, e).live == t.live - {stack, space}
  {
    RunInv(s, es);
    var t := After(s, es);
    var z := Victim(t, e);
    VictimIsOff(t, e);
    ReapEffect(t, e);
    assert Owns(t.procs[z], t.procs[z].pgdir) && Owns(t.procs[z], t.procs[z].kstack.value);
  }

  // ---------------------------------------------------------------- kill and free entries

  /** No free entry carries a leftover `killed` mark. */
  predicate CleanFree(s: State) {
    forall i :: 0 <= i < |s.procs| && s.procs[i].state == Unused ==> !s.procs[i].killed
  }

  /** kill's search stops at an entry that is not in use: pid 0 finds a free entry, and so does
      the stale pid that a failed fork leaves behind. */
  predicate KillsFree(s: State, e: Event) {
    e.Kill? && var i := FirstWithPid(s.procs, e.pid, 0); i < |s.procs| && s.procs[i].state == Unused
  }

  /** Free entries stay clean through a step if and only if the step is not a kill that finds a
      free entry. */
  lemma CleanStepIff(s: State, e: Event)
    requires Enabled(s, e) && EntriesOk(s) && CleanFree(s)
    ensures CleanFree(Next(s, e)) <==> !KillsFree(s, e)
  {
    var s' := Next(s, e);
    if KillsFree(s, e) {
      var i := FirstWithPid(s.procs, e.pid, 0);
      assert s'.procs[i].state == Unused && s'.procs[i].killed;
    } else if e.Exit? {
      var p := s.cpus[e.k].p;
      forall i | 0 <= i < |s.procs| && i != p ensures s'.procs[i].state == Unused ==> !s'.procs[i].killed {
        ExitBystanders(s, p, i);
      }
    }
  }

  /** Along a run whose kills never find a free entry, no free entry is marked, so every child
      starts alive. */
  lemma {:induction false} CleanRun(s: State, es: seq<Event>)
    requires Init(s) && Feasible(s, es)
    requires forall n :: 0 <= n < |es| ==>
               Feasible(s, es[..n]) && !KillsFree(After(s, es[..n]), es[n])
    ensures CleanFree(After(s, es))
  {
    if es != [] {
      var init := es[..|es| - 1];
      forall n | 0 <= n < |init|
        ensures Feasible(s, init[..n]) && !KillsFree(After(s, init[..n]), init[n])
      {
        assert init[..n] == es[..n];
      }
      CleanRun(s, init);
      RunInv(s, init);
      hide Next, After, Feasible;
      assert Feasible(s, es[..|es| - 1]) && !KillsFree(After(s, init), es[|es| - 1]);
      AfterLast(s, es);
      CleanStepIff(After(s, init), es[|es| - 1]);
    }
  }

  /** After such a run a child that fork makes is not marked. */
  lemma ChildrenStartUnmarked(s: State, es: seq<Event>, e: Event)
    requires Init(s) && Feasible(s, es) && e.Fork? && Enabled(After(s, es), e)
    requires forall n :: 0 <= n < |es| ==>
               Feasible(s, es[..n]) && !KillsFree(After(s, es[..n]), es[n])
    requires FirstUnused(After(s, es).procs, 0) < |After(s, es).procs|
    ensures |Next(After(s, es), e).procs| == |After(s, es).procs|
    ensures !Next(After(s, es), e).procs[FirstUnused(After(s, es).procs, 0)].killed
  {
    CleanRun(s, es);
    RunInv(s, es);
    ForkChild(After(s, es), e);
  }

  lemma AfterLast(s: State, es: seq<Event>)
    requires es != [] && Feasible(s, es)
    ensures Feasible(s, es[..|es| - 1]) && Enabled(After(s, es[..|es| - 1]), es[|es| - 1])
    ensures After(s, es) == Next(After(s, es[..|es| - 1]), es[|es| - 1])
  {
  }

  lemma Snoc(s: State, es: seq<Event>, e: Event)
    requires Feasible(s, es) && Enabled(After(s, es), e)
    ensures Feasible(s, es + [e]) && After(s, es + [e]) == Next(After(s, es), e)
  {
    assert (es + [e])[..|es|] == es;
  }

  /** The failing run, from the start: initproc is switched in, kills pid 0, which finds the free entry after
      its own, and forks; its first child is ready to run and already marked killed. */
  lemma KillZeroMarksTheNextChild(s: State, stack: nat, space: nat)
    requires Init(s) && s.init == 0 && |s.procs| >= 2 && |s.cpus| >= 1
    requires stack != space && stack !in s.live && space !in s.live
    ensures var es := [SchedAcquire(0), SchedSwitch(0), Resume(0), Kill(0, 0), Fork(0, Some(stack), Some(space))];
            && Feasible(s, es)
            && var u := After(s, es);
            |u.procs| >= 2 && u.procs[1].state == Runnable && u.procs[1].parent == Some(0) && u.procs[1].killed
  {
    hide Next, Enabled, Feasible, After;
    var e1, e2, e3, e4, e5 := SchedAcquire(0), SchedSwitch(0), Resume(0), Kill(0, 0), Fork(0, Some(stack), Some(space));
    StartRun(s);
    InitRuns(s);
    Snoc(s, [], e1);
    var es1, s1 := [] + [e1], Next(s, e1);
    Snoc(s, es1, e2);
    var es2, s2 := es1 + [e2], Next(s1, e2);
    Snoc(s, es2, e3);
    var es3, s3 := es2 + [e3], Next(s2, e3);
    MarkedThenForked(s3, stack, space);
    Snoc(s, es3, e4);
    Snoc(s, es3 + [e4], e5);
    assert es3 + [e4] + [e5] == [e1, e2, e3, e4, e5];
  }

  /** The first CPU takes ptable.lock, switches to initproc, and initproc goes to user space. */
  lemma InitRuns(s: State)
    requires Init(s) && s.init == 0 && |s.procs| >= 2 && |s.cpus| >= 1
    ensures Enabled(s, SchedAcquire(0))
    ensures var s1 := Next(s, SchedAcquire(0));
            && Enabled(s1, SchedSwitch(0))
            && var s2 := Next(s1, SchedSwitch(0));
            && Enabled(s2, Resume(0))
            && InInit(Next(s2, Resume(0)), s)
  {
  }

  /** initproc runs in user space and every other entry is still free. */
  ghost predicate InInit(t: State, s: State) {
    && |t.procs| == |s.procs| >= 2 && |t.cpus| == |s.cpus| >= 1 && t.cpus[0] == Exec(0) && t.pt == None
    && t.live == s.live && t.init == 0 && t.nextpid == s.nextpid
    && t.procs[0].pc == User && t.procs[0].pid != 0 && t.procs[0].state == Running && Blank(t.procs[1])
  }

  lemma MarkedThenForked(s: State, stack: nat, space: nat)
    requires |s.procs| >= 2 && |s.cpus| >= 1 && s.cpus[0] == Exec(0) && s.pt == None
    requires s.procs[0].pc == User && s.procs[0].pid != 0 && s.procs[0].state == Running && Blank(s.procs[1])
    requires stack != space && stack !in s.live && space !in s.live
    ensures Enabled(s, Kill(0, 0))
    ensures var s1 := Next(s, Kill(0, 0));
            var e := Fork(0, Some(stack), Some(space));
            && Enabled(s1, e)
            && var u := Next(s1, e);
            |u.procs| >= 2 && u.procs[1].state == Runnable && u.procs[1].parent == Some(0) && u.procs[1].killed
  {
    assert FirstWithPid(s.procs, 0, 1) == 1;
    assert FirstWithPid(s.procs, 0, 0) == 1;
    var s1 := Next(s, Kill(0, 0));
    assert FirstUnused(s1.procs, 1) == 1;
    assert FirstUnused(s1.procs, 0) == 1;
  }

  lemma StartRun(s: State)
    ensures Feasible(s, []) && After(s, []) == s
  {
  }
}
