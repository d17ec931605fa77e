/** sleep, wakeup and the scheduler of proc.c over the spinlocks of spinlock.c, as a step machine
    for any number of processes, CPUs, locks and channels.

    Each step is one lock operation or one access made while a lock is held, so every
    interleaving the locks allow is a run.  A lock remembers the CPU that holds it, as struct
    spinlock does; ptable.lock therefore crosses swtch from a process to the scheduler of the
    same CPU, and back to another process.

    A device interrupt taken by a process that holds no lock is a stretch of that process's own
    steps.  One taken in the scheduler's idle loop runs in a context of its own: the entries of
    `procs` from `n` on are such contexts, which may take locks, set conditions and call wakeup
    like anybody else, but never sleep or yield and are not in the process table. */
module SleepWakeup {
  import opened Common

  /** A sleep channel, the spinlock protecting its condition, and the condition's tag. */
  datatype Chan = Chan(lock: nat, tag: nat)

  datatype Pc =
    | Free                                   // no lock held
    | Hold(l: nat)                           // holds spinlock l
    | SleepAcq(c: Chan)                      // sleep: holds lk, wants ptable.lock
    | SleepRel(c: Chan)                      // sleep: holds lk and ptable.lock
    | SleepMark(c: Chan)                     // sleep: lk released, holds ptable.lock
    | SleepSched(c: Chan)                    // sleep: marked SLEEPING, about to swtch
    | SleepOff(c: Chan)                      // sleep: switched away inside sched
    | SleepBack(c: Chan)                     // sleep: switched back, holds ptable.lock
    | SleepRe(c: Chan)                       // sleep: wants lk again
    | WakeAcq(c: Chan, lk: Option<nat>)      // wakeup: wants ptable.lock, may hold lk
    | WakeScan(c: Chan, i: nat, lk: Option<nat>)  // wakeup1: holds ptable.lock, looks at entry i
    | YieldMark                              // yield: holds ptable.lock
    | YieldSched                             // yield: marked RUNNABLE, about to swtch
    | YieldOff                               // yield (or forkret): switched away
    | YieldBack                              // yield (or forkret): switched in, holds ptable.lock
    | IntrOff                                // an interrupt context not in use

  datatype PState = Sleeping | Runnable | Running

  /** A process or interrupt context; `owed` are the channels whose condition it made true and has not woken yet,
      `at` is the CPU it was last switched in on. */
  datatype Proc = Proc(state: PState, chan: Option<Chan>, pc: Pc, owed: set<Chan>, at: nat)

  datatype Cpu =
    | Idle                 // scheduler, ptable.lock not held
    | Scan(i: nat)         // scheduler, holding ptable.lock, at table entry i
    | Exec(p: nat)         // running process p, or interrupted while idle

  datatype State = State(
    cpus: seq<Cpu>,
    n: nat,                  // the process table is procs[..n]
    procs: seq<Proc>,
    pt: Option<nat>,         // CPU holding ptable.lock
    locks: map<nat, nat>,    // held spinlocks and the CPUs holding them
    conds: set<Chan>         // channels whose condition is true
  )

  datatype Event =
    | SchedAcquire(k: nat) | SchedSkip(k: nat) | SchedSwitch(k: nat) | SchedRelease(k: nat)
    | Acquire(k: nat, l: nat) | Release(k: nat) | SetCond(k: nat, c: Chan, v: bool)
    | Sleep(k: nat, c: Chan) | SleepAcquire(k: nat) | SleepRelease(k: nat) | SleepMarks(k: nat)
    | SwitchOut(k: nat) | SleepResume(k: nat) | SleepReacquire(k: nat)
    | Wakeup(k: nat, c: Chan) | WakeAcquire(k: nat) | WakeOne(k: nat) | WakeDone(k: nat)
    | YieldAcquire(k: nat) | YieldMarks(k: nat) | YieldResume(k: nat)
    | Kill(k: nat, target: nat)
    | IntrEnter(k: nat, h: nat) | IntrExit(k: nat)

  predicate OnCpu(pc: Pc) { !pc.SleepOff? && !pc.YieldOff? && !pc.IntrOff? }

  predicate HoldsPt(pc: Pc) {
    || pc.SleepRel? || pc.SleepMark? || pc.SleepSched? || pc.SleepBack?
    || pc.WakeScan? || pc.YieldMark? || pc.YieldSched? || pc.YieldBack?
  }

  function HeldLock(pc: Pc): Option<nat> {
    match pc
    case Hold(l) => Some(l)
    case SleepAcq(c) => Some(c.lock)
    case SleepRel(c) => Some(c.lock)
    case WakeAcq(_, lk) => lk
    case WakeScan(_, _, lk) => lk
    case _ => None
  }

  function HoldPc(lk: Option<nat>): Pc {
    match lk case Some(l) => Hold(l) case None => Free
  }

  // ---------------------------------------------------------------- steps

  /** CPU `k` is running a process; that process is `s.cpus[k].p`. */
  predicate Runs(s: State, k: nat) {
    k < |s.cpus| && s.cpus[k].Exec? && s.cpus[k].p < |s.procs|
  }

  /** The steps that are not a process's own: the scheduler's, kill, and interrupts taken while
      idle. */
  predicate Outside(e: Event) {
    || e.SchedAcquire? || e.SchedSkip? || e.SchedSwitch? || e.SchedRelease? || e.Kill?
    || e.IntrEnter? || e.IntrExit?
  }

  predicate OutEnabled(s: State, e: Event) {
    match e
    case SchedAcquire(k) => k < |s.cpus| && s.cpus[k] == Idle && s.pt == None
    case SchedSkip(k) =>
      && k < |s.cpus| && s.cpus[k].Scan? && s.cpus[k].i < s.n <= |s.procs|
      && s.procs[s.cpus[k].i].state != Runnable
    case SchedSwitch(k) =>
      && k < |s.cpus| && s.cpus[k].Scan? && s.cpus[k].i < s.n <= |s.procs|
      && s.procs[s.cpus[k].i].state == Runnable
    case SchedRelease(k) => k < |s.cpus| && s.cpus[k].Scan? && s.cpus[k].i >= s.n
    case Kill(k, target) =>
      // kill() is one critical section of ptable.lock
      && Runs(s, k) && s.procs[s.cpus[k].p].pc == Free && s.pt == None
      && target < s.n <= |s.procs|
    case IntrEnter(k, h) =>
      && k < |s.cpus| && s.cpus[k] == Idle && s.n <= h < |s.procs| && s.procs[h].pc == IntrOff
    case IntrExit(k) =>
      // a handler returns with its locks released and its wakeups made
      && Runs(s, k) && s.n <= s.cpus[k].p && s.procs[s.cpus[k].p].pc == Free
      && s.procs[s.cpus[k].p].owed == {}
    case _ => false
  }

  predicate Enabled(s: State, e: Event) {
    if Outside(e) then OutEnabled(s, e)
    else
      && Runs(s, e.k) && ProcEnabled(s, s.procs[s.cpus[e.k].p], e)
      && (e.Sleep? || e.YieldAcquire? ==> s.cpus[e.k].p < s.n)
  }

  predicate ProcEnabled(s: State, q: Proc, e: Event) {
    match e
    case Acquire(_, l) => q.pc == Free && l !in s.locks
    case Release(_) => q.pc.Hold?
    case SetCond(_, c, _) => q.pc == Hold(c.lock)
    // the caller tested the condition under its lock and owes no wakeup
    case Sleep(_, c) => q.pc == Hold(c.lock) && c !in s.conds && q.owed == {}
    case SleepAcquire(_) => q.pc.SleepAcq? && s.pt == None
    case SleepRelease(_) => q.pc.SleepRel?
    case SleepMarks(_) => q.pc.SleepMark?
    case SwitchOut(_) => q.pc.SleepSched? || q.pc.YieldSched?
    case SleepResume(_) => q.pc.SleepBack?
    case SleepReacquire(_) => q.pc.SleepRe? && q.pc.c.lock !in s.locks
    case Wakeup(_, c) => q.pc.Free? || q.pc.Hold?
    case WakeAcquire(_) => q.pc.WakeAcq? && s.pt == None
    case WakeOne(_) => q.pc.WakeScan? && q.pc.i < s.n <= |s.procs|
    case WakeDone(_) => q.pc.WakeScan? && q.pc.i >= s.n
    case YieldAcquire(_) => q.pc == Free && s.pt == None
    case YieldMarks(_) => q.pc.YieldMark?
    case YieldResume(_) => q.pc.YieldBack?
    case _ => false
  }

  function Next(s: State, e: Event): State
    requires Enabled(s, e)
  {
    if Outside(e) then OutNext(s, e) else ProcNext(s, e.k, s.cpus[e.k].p, e)
  }

  function OutNext(s: State, e: Event): State
    requires OutEnabled(s, e)
  {
    match e
    case SchedAcquire(k) => s.(cpus := s.cpus[k := Scan(0)], pt := Some(k))
    case SchedSkip(k) => s.(cpus := s.cpus[k := Scan(s.cpus[k].i + 1)])
    case SchedSwitch(k) =>
      var p := s.cpus[k].i;
      var q := s.procs[p];
      s.(cpus := s.cpus[k := Exec(p)],
         procs := s.procs[p := q.(state := Running, at := k,
                                  pc := if q.pc.SleepOff? then SleepBack(q.pc.c) else YieldBack)])
    case SchedRelease(k) => s.(cpus := s.cpus[k := Idle], pt := None)
    case Kill(k, target) =>
      s.(procs := s.procs[target := Roused(s.procs[target])])
    case IntrEnter(k, h) =>
      s.(cpus := s.cpus[k := Exec(h)], procs := s.procs[h := s.procs[h].(pc := Free, at := k)])
    case IntrExit(k) =>
      var h := s.cpus[k].p;
      s.(cpus := s.cpus[k := Idle], procs := s.procs[h := s.procs[h].(pc := IntrOff)])
  }

  function Roused(q: Proc): Proc {
    if q.state == Sleeping then q.(state := Runnable) else q
  }

  function ProcNext(s: State, k: nat, p: nat, e: Event): State
    requires k < |s.cpus| && p < |s.procs| && ProcEnabled(s, s.procs[p], e)
  {
    var q := s.procs[p];
    match e
    case Acquire(_, l) => s.(procs := s.procs[p := q.(pc := Hold(l))], locks := s.locks[l := k])
    case Release(_) => s.(procs := s.procs[p := q.(pc := Free)], locks := s.locks - {q.pc.l})
    case SetCond(_, c, v) =>
      if v then s.(procs := s.procs[p := q.(owed := q.owed + {c})], conds := s.conds + {c})
      else s.(conds := s.conds - {c})
    case Sleep(_, c) => s.(procs := s.procs[p := q.(pc := SleepAcq(c))])
    case SleepAcquire(_) => s.(procs := s.procs[p := q.(pc := SleepRel(q.pc.c))], pt := Some(k))
    case SleepRelease(_) =>
      s.(procs := s.procs[p := q.(pc := SleepMark(q.pc.c))], locks := s.locks - {q.pc.c.lock})
    case SleepMarks(_) =>
      s.(procs := s.procs[p := q.(pc := SleepSched(q.pc.c), state := Sleeping, chan := Some(q.pc.c))])
    case SwitchOut(_) =>
      // swtch to this CPU's scheduler, which still holds ptable.lock and goes to the next entry
      s.(procs := s.procs[p := q.(pc := if q.pc.SleepSched? then SleepOff(q.pc.c) else YieldOff)],
         cpus := s.cpus[k := Scan(p + 1)])
    case SleepResume(_) =>
      s.(procs := s.procs[p := q.(pc := SleepRe(q.pc.c), chan := None)], pt := None)
    case SleepReacquire(_) =>
      s.(procs := s.procs[p := q.(pc := Hold(q.pc.c.lock))], locks := s.locks[q.pc.c.lock := k])
    case Wakeup(_, c) => s.(procs := s.procs[p := q.(pc := WakeAcq(c, HeldLock(q.pc)))])
    case WakeAcquire(_) =>
      s.(procs := s.procs[p := q.(pc := WakeScan(q.pc.c, 0, q.pc.lk))], pt := Some(k))
    case WakeOne(_) =>
      var i := q.pc.i;
      var woken := if s.procs[i].state == Sleeping && s.procs[i].chan == Some(q.pc.c)
                   then s.procs[i := Roused(s.procs[i])] else s.procs;
      s.(procs := woken[p := woken[p].(pc := WakeScan(q.pc.c, i + 1, q.pc.lk))])
    case WakeDone(_) =>
      s.(procs := s.procs[p := q.(pc := HoldPc(q.pc.lk), owed := q.owed - {q.pc.c})], pt := None)
    case YieldAcquire(_) => s.(procs := s.procs[p := q.(pc := YieldMark)], pt := Some(k))
    case YieldMarks(_) => s.(procs := s.procs[p := q.(pc := YieldSched, state := Runnable)])
    case YieldResume(_) => s.(procs := s.procs[p := q.(pc := Free)], pt := None)
  }

  predicate Feasible(s: State, es: seq<Event>)
    decreases |es|, 0
  {
    es == [] || (Feasible(s, es[..|es| - 1]) && Enabled(After(s, es[..|es| - 1]), es[|es| - 1]))
  }

  function After(s: State, es: seq<Event>): State
    requires Feasible(s, es)
    decreases |es|, 1
  {
    if es == [] then s else Next(After(s, es[..|es| - 1]), es[|es| - 1])
  }

  /** Every CPU in its scheduler, every process ready for its first run through forkret. */
  predicate Init(s: State) {
    && (forall k :: 0 <= k < |s.cpus| ==> s.cpus[k] == Idle)
    && s.n <= |s.procs|
    && (forall p :: 0 <= p < |s.procs| ==>
          && s.procs[p].state == (if p < s.n then Runnable else Running)
          && s.procs[p].pc == (if p < s.n then YieldOff else IntrOff)
          && s.procs[p].chan == None && s.procs[p].owed == {})
    && s.pt == None && s.locks == map[] && s.conds == {}
  }

  // ---------------------------------------------------------------- the invariant

  /** CPUs, processes and locks agree. */
  predicate CpusOk(s: State) {
    && (forall k :: 0 <= k < |s.cpus| && s.cpus[k].Exec? ==>
          s.cpus[k].p < |s.procs| && OnCpu(s.procs[s.cpus[k].p].pc) && s.procs[s.cpus[k].p].at == k)
    && (forall p :: 0 <= p < |s.procs| && OnCpu(s.procs[p].pc) ==>
          s.procs[p].at < |s.cpus| && s.cpus[s.procs[p].at] == Exec(p))
  }

  predicate PtOk(s: State) {
    && (forall p :: 0 <= p < |s.procs| && HoldsPt(s.procs[p].pc) ==> s.pt == Some(s.procs[p].at))
    && (forall k :: 0 <= k < |s.cpus| && s.cpus[k].Scan? ==> s.pt == Some(k))
  }

  predicate LocksOk(s: State) {
    forall p :: 0 <= p < |s.procs| && HeldLock(s.procs[p].pc).Some? ==>
      var l := HeldLock(s.procs[p].pc).value;
      l in s.locks && s.locks[l] == s.procs[p].at
  }

  predicate ProcOk(q: Proc) {
    match q.pc
    case SleepSched(c) => q.state == Sleeping && q.chan == Some(c)
    case SleepOff(c) => (q.state == Sleeping || q.state == Runnable) && q.chan == Some(c)
    case SleepBack(c) => q.state == Running && q.chan == Some(c)
    case YieldSched => q.state == Runnable && q.chan == None
    case YieldOff => q.state == Runnable && q.chan == None
    case _ => q.state == Running && q.chan == None
  }

  predicate HandlerPc(pc: Pc) {
    pc.IntrOff? || pc.Free? || pc.Hold? || pc.WakeAcq? || pc.WakeScan?
  }

  predicate ProcsOk(s: State) {
    && s.n <= |s.procs|
    && (forall p :: 0 <= p < |s.procs| ==> ProcOk(s.procs[p]))
    && (forall p :: s.n <= p < |s.procs| ==> HandlerPc(s.procs[p].pc))
  }

  /** Process `q` still has to look at table entry `p` on behalf of channel `c`. */
  predicate Heading(s: State, q: nat, c: Chan, p: nat) {
    && q < |s.procs| && c in s.procs[q].owed
    && !(s.procs[q].pc.WakeScan? && s.procs[q].pc.c == c && s.procs[q].pc.i > p)
  }

  ghost predicate WakerComing(s: State, c: Chan, p: nat) {
    exists q :: Heading(s, q, c, p)
  }

  ghost predicate SleepersOk(s: State) {
    && (forall p :: 0 <= p < |s.procs| && (s.procs[p].pc.SleepAcq? || s.procs[p].pc.SleepRel?) ==>
          s.procs[p].pc.c !in s.conds)
    && (forall p :: 0 <= p < |s.procs| && s.procs[p].pc.SleepMark? && s.procs[p].pc.c in s.conds ==>
          WakerComing(s, s.procs[p].pc.c, p))
    && (forall p :: 0 <= p < |s.procs| && s.procs[p].state == Sleeping && s.procs[p].chan.Some?
                    && s.procs[p].chan.value in s.conds ==>
          WakerComing(s, s.procs[p].chan.value, p))
  }

  ghost predicate Inv(s: State) {
    CpusOk(s) && PtOk(s) && LocksOk(s) && ProcsOk(s) && SleepersOk(s)
  }

  // ---------------------------------------------------------------- mutual exclusion

  lemma PtExclusive(s: State, p: nat, q: nat)
    requires CpusOk(s) && PtOk(s) && p < |s.procs| && q < |s.procs|
    requires HoldsPt(s.procs[p].pc) && HoldsPt(s.procs[q].pc)
    ensures p == q
  {
  }

  lemma LockExclusive(s: State, p: nat, q: nat, l: nat)
    requires CpusOk(s) && LocksOk(s) && p < |s.procs| && q < |s.procs|
    requires HeldLock(s.procs[p].pc) == Some(l) && HeldLock(s.procs[q].pc) == Some(l)
    ensures p == q
  {
    assert s.procs[p].at == s.locks[l] == s.procs[q].at;
  }

  // ---------------------------------------------------------------- preservation

  predicate Switches(e: Event) { e.SchedSwitch? || e.SwitchOut? || e.IntrEnter? || e.IntrExit? }

  /** Only the two directions of swtch, and interrupts of an idle CPU, move anybody on or off a
      CPU. */
  lemma NoSwitch(s: State, e: Event)
    requires Enabled(s, e) && !Switches(e) && ProcsOk(s)
    ensures var s' := Next(s, e);
            && |s'.procs| == |s.procs| && |s'.cpus| == |s.cpus|
            && (forall p :: 0 <= p < |s.procs| ==>
                  s'.procs[p].at == s.procs[p].at && OnCpu(s'.procs[p].pc) == OnCpu(s.procs[p].pc))
            && (forall k :: 0 <= k < |s.cpus| ==>
                  s'.cpus[k] == s.cpus[k] || (!s'.cpus[k].Exec? && !s.cpus[k].Exec?))
  {
    if !Outside(e) {
      ProcNoSwitch(s, e);
    }
  }

  lemma ProcNoSwitch(s: State, e: Event)
    requires Runs(s, e.k) && ProcEnabled(s, s.procs[s.cpus[e.k].p], e) && !e.SwitchOut?
    ensures var s' := ProcNext(s, e.k, s.cpus[e.k].p, e);
            && |s'.procs| == |s.procs| && s'.cpus == s.cpus
            && forall p :: 0 <= p < |s.procs| ==>
                 s'.procs[p].at == s.procs[p].at && OnCpu(s'.procs[p].pc) == OnCpu(s.procs[p].pc)
  {
  }

  lemma CpusStep(s: State, e: Event)
    requires CpusOk(s) && PtOk(s) && ProcsOk(s) && Enabled(s, e)
    ensures CpusOk(Next(s, e))
  {
    if e.SchedSwitch? {
      SwitchInKeepsCpus(s, e.k);
    } else if e.SwitchOut? {
      SwitchOutKeepsCpus(s, e.k);
    } else if e.IntrEnter? || e.IntrExit? {
      InterruptKeepsCpus(s, e);
    } else {
      NoSwitch(s, e);
      hide Next, Enabled;
    }
  }

  lemma SwitchInKeepsCpus(s: State, k: nat)
    requires CpusOk(s) && PtOk(s) && ProcsOk(s) && Enabled(s, SchedSwitch(k))
    ensures CpusOk(Next(s, SchedSwitch(k)))
  {
    // a RUNNABLE process is off its stack: had it not left yet, it would hold ptable.lock
    assert !OnCpu(s.procs[s.cpus[k].i].pc);
  }

  lemma SwitchOutKeepsCpus(s: State, k: nat)
    requires CpusOk(s) && Enabled(s, SwitchOut(k))
    ensures CpusOk(Next(s, SwitchOut(k)))
  {
  }

  lemma InterruptKeepsCpus(s: State, e: Event)
    requires CpusOk(s) && Enabled(s, e) && (e.IntrEnter? || e.IntrExit?)
    ensures CpusOk(Next(s, e))
  {
  }

  lemma PtStep(s: State, e: Event)
    requires CpusOk(s) && PtOk(s) && ProcsOk(s) && Enabled(s, e)
    ensures PtOk(Next(s, e))
  {
    if !Outside(e) {
      ProcPtStep(s, e);
    }
  }

  lemma ProcPtStep(s: State, e: Event)
    requires CpusOk(s) && PtOk(s) && Runs(s, e.k) && ProcEnabled(s, s.procs[s.cpus[e.k].p], e)
    ensures PtOk(ProcNext(s, e.k, s.cpus[e.k].p, e))
  {
  }

  lemma LocksStep(s: State, e: Event)
    requires CpusOk(s) && LocksOk(s) && ProcsOk(s) && Enabled(s, e)
    ensures LocksOk(Next(s, e))
  {
    if e.Acquire? || e.SleepReacquire? {
    } else if e.Release? || e.SleepRelease? {
      forall p | 0 <= p < |s.procs| && HeldLock(s.procs[p].pc) == HeldLock(s.procs[s.cpus[e.k].p].pc)
        ensures p == s.cpus[e.k].p
      {
        LockExclusive(s, p, s.cpus[e.k].p, HeldLock(s.procs[p].pc).value);
      }
    } else {
      LocksFrame(s, e);
      hide Next, Enabled, CpusOk;
    }
  }

  lemma LocksFrame(s: State, e: Event)
    requires ProcsOk(s) && Enabled(s, e)
    requires !e.Acquire? && !e.SleepReacquire? && !e.Release? && !e.SleepRelease?
    ensures var s' := Next(s, e);
            && s'.locks == s.locks && |s'.procs| == |s.procs|
            && forall p :: 0 <= p < |s.procs| ==>
                 && HeldLock(s'.procs[p].pc) == HeldLock(s.procs[p].pc)
                 && (HeldLock(s.procs[p].pc).Some? ==> s'.procs[p].at == s.procs[p].at)
  {
    if !Outside(e) {
      ProcLocksFrame(s, e);
    }
  }

  lemma ProcLocksFrame(s: State, e: Event)
    requires Runs(s, e.k) && ProcEnabled(s, s.procs[s.cpus[e.k].p], e)
    requires !e.Acquire? && !e.SleepReacquire? && !e.Release? && !e.SleepRelease?
    ensures var s' := ProcNext(s, e.k, s.cpus[e.k].p, e);
            && s'.locks == s.locks && |s'.procs| == |s.procs|
            && forall p :: 0 <= p < |s.procs| ==>
                 && HeldLock(s'.procs[p].pc) == HeldLock(s.procs[p].pc)
                 && (HeldLock(s.procs[p].pc).Some? ==> s'.procs[p].at == s.procs[p].at)
  {
  }

  lemma ProcsStep(s: State, e: Event)
    requires CpusOk(s) && PtOk(s) && ProcsOk(s) && Enabled(s, e)
    ensures ProcsOk(Next(s, e))
  {
    if !Outside(e) {
      ProcProcsStep(s, e);
    }
  }

  lemma ProcProcsStep(s: State, e: Event)
    requires CpusOk(s) && PtOk(s) && ProcsOk(s) && Runs(s, e.k) && ProcEnabled(s, s.procs[s.cpus[e.k].p], e)
    requires e.Sleep? || e.YieldAcquire? ==> s.cpus[e.k].p < s.n
    ensures ProcsOk(ProcNext(s, e.k, s.cpus[e.k].p, e))
  {
    ProcOkStep(s, e);
    HandlerPcStep(s, e);
    hide ProcNext, ProcEnabled, ProcOk, HandlerPc;
  }

  lemma ProcOkStep(s: State, e: Event)
    requires CpusOk(s) && PtOk(s) && ProcsOk(s) && Runs(s, e.k) && ProcEnabled(s, s.procs[s.cpus[e.k].p], e)
    ensures forall p :: 0 <= p < |s.procs| && p < |ProcNext(s, e.k, s.cpus[e.k].p, e).procs| ==>
              ProcOk(ProcNext(s, e.k, s.cpus[e.k].p, e).procs[p])
  {
    hide HandlerPc;
  }

  lemma HandlerPcStep(s: State, e: Event)
    requires ProcsOk(s) && Runs(s, e.k) && ProcEnabled(s, s.procs[s.cpus[e.k].p], e)
    requires e.Sleep? || e.YieldAcquire? ==> s.cpus[e.k].p < s.n
    ensures var s' := ProcNext(s, e.k, s.cpus[e.k].p, e);
            && s'.n == s.n && |s'.procs| == |s.procs|
            && forall p :: s.n <= p < |s.procs| ==> HandlerPc(s'.procs[p].pc)
  {
    hide ProcOk;
  }

  /** No step other than the end of a scan drops an obligation, and no scan skips an entry. */
  lemma HeadingStep(s: State, e: Event, q: nat, c: Chan, p: nat)
    requires Enabled(s, e) && Heading(s, q, c, p) && p < s.n
    requires !(e.WakeOne? && s.cpus[e.k].p == q && s.procs[q].pc.c == c && s.procs[q].pc.i == p)
    ensures Heading(Next(s, e), q, c, p)
  {
    if !Outside(e) {
      ProcHeadingStep(s, e, q, c, p);
    }
  }

  lemma ProcHeadingStep(s: State, e: Event, q: nat, c: Chan, p: nat)
    requires Runs(s, e.k) && ProcEnabled(s, s.procs[s.cpus[e.k].p], e) && Heading(s, q, c, p) && p < s.n
    requires !(e.WakeOne? && s.cpus[e.k].p == q && s.procs[q].pc.c == c && s.procs[q].pc.i == p)
    ensures Heading(ProcNext(s, e.k, s.cpus[e.k].p, e), q, c, p)
  {
  }

  lemma WakerStep(s: State, e: Event, c: Chan, p: nat)
    requires Enabled(s, e) && WakerComing(s, c, p) && p < s.n
    requires e.WakeOne? ==>
               s.procs[s.cpus[e.k].p].pc.c != c || s.procs[s.cpus[e.k].p].pc.i != p
    ensures WakerComing(Next(s, e), c, p)
  {
    var q :| Heading(s, q, c, p);
    HeadingStep(s, e, q, c, p);
  }

  /** A condition turns true only through SetCond, whose caller then owes the wakeup. */
  lemma CondRaised(s: State, e: Event, c: Chan, p: nat)
    requires Enabled(s, e) && c !in s.conds && c in Next(s, e).conds
    ensures e.SetCond? && e.c == c && HeldLock(s.procs[s.cpus[e.k].p].pc) == Some(c.lock)
    ensures s.procs[s.cpus[e.k].p].pc.Hold?
    ensures WakerComing(Next(s, e), c, p)
  {
    assert Heading(Next(s, e), s.cpus[e.k].p, c, p);
  }

  lemma BeforeMarkStep(s: State, e: Event, p: nat)
    requires CpusOk(s) && LocksOk(s) && SleepersOk(s) && Enabled(s, e) && p < |s.procs|
    requires Next(s, e).procs[p].pc.SleepAcq? || Next(s, e).procs[p].pc.SleepRel?
    ensures Next(s, e).procs[p].pc.c !in Next(s, e).conds
  {
    var c := Next(s, e).procs[p].pc.c;
    OriginOfPc(s, e, p);
    if c in Next(s, e).conds {
      CondRaised(s, e, c, p);
      LockExclusive(s, p, s.cpus[e.k].p, c.lock);
    }
  }

  /** Where a process inside sleep, before swtch, was one step earlier. */
  lemma OriginOfPc(s: State, e: Event, p: nat)
    requires Enabled(s, e) && p < |s.procs|
    ensures var o, r := s.procs[p].pc, Next(s, e).procs[p].pc;
            && (r.SleepAcq? ==> o == r || (o == Hold(r.c.lock) && r.c !in s.conds))
            && (r.SleepRel? ==> o == r || o == SleepAcq(r.c))
            && (r.SleepMark? ==> o == r || o == SleepRel(r.c))
  {
  }

  lemma AtMarkStep(s: State, e: Event, p: nat)
    requires Inv(s) && Enabled(s, e) && p < |s.procs|
    requires var s' := Next(s, e);
             p < |s'.procs| && s'.procs[p].pc.SleepMark? && s'.procs[p].pc.c in s'.conds
    ensures WakerComing(Next(s, e), Next(s, e).procs[p].pc.c, p)
  {
    var c := Next(s, e).procs[p].pc.c;
    OriginOfPc(s, e, p);
    hide LocksOk, ProcsOk;
    if c !in s.conds {
      CondRaised(s, e, c, p);
    } else {
      if e.WakeOne? { PtExclusive(s, p, s.cpus[e.k].p); }
      WakerStep(s, e, c, p);
    }
  }

  /** Where a sleeping process was one step earlier, and that a scan wakes the entry it visits. */
  lemma OriginOfSleeper(s: State, e: Event, p: nat)
    requires ProcsOk(s) && Enabled(s, e) && p < |s.procs|
    requires Next(s, e).procs[p].state == Sleeping && Next(s, e).procs[p].chan.Some?
    ensures var o, c := s.procs[p], Next(s, e).procs[p].chan.value;
            && (o.pc == SleepMark(c) || (o.state == Sleeping && o.chan == Some(c)))
            && (e.WakeOne? ==> s.procs[s.cpus[e.k].p].pc.c != c || s.procs[s.cpus[e.k].p].pc.i != p)
  {
    if !Outside(e) {
      ProcOriginOfSleeper(s, e, p);
    }
  }

  lemma ProcOriginOfSleeper(s: State, e: Event, p: nat)
    requires ProcsOk(s) && Runs(s, e.k) && ProcEnabled(s, s.procs[s.cpus[e.k].p], e) && p < |s.procs|
    requires p < |ProcNext(s, e.k, s.cpus[e.k].p, e).procs|
    ensures var o, r := s.procs[p], ProcNext(s, e.k, s.cpus[e.k].p, e).procs[p];
            r.state == Sleeping && r.chan.Some? ==>
              && (o.pc == SleepMark(r.chan.value) || (o.state == Sleeping && o.chan == r.chan))
              && (e.WakeOne? ==>
                    s.procs[s.cpus[e.k].p].pc.c != r.chan.value || s.procs[s.cpus[e.k].p].pc.i != p)
  {
  }

  lemma AsleepStep(s: State, e: Event, p: nat)
    requires ProcsOk(s) && SleepersOk(s) && Enabled(s, e) && p < |s.procs|
    requires var s' := Next(s, e);
             && p < |s'.procs| && s'.procs[p].state == Sleeping && s'.procs[p].chan.Some?
             && s'.procs[p].chan.value in s'.conds
    ensures WakerComing(Next(s, e), Next(s, e).procs[p].chan.value, p)
  {
    var c := Next(s, e).procs[p].chan.value;
    OriginOfSleeper(s, e, p);
    if c !in s.conds {
      CondRaised(s, e, c, p);
    } else {
      WakerStep(s, e, c, p);
    }
  }

  lemma SameSize(s: State, e: Event)
    requires Enabled(s, e)
    ensures |Next(s, e).procs| == |s.procs| && |Next(s, e).cpus| == |s.cpus|
  {
  }

  lemma SleepersStep(s: State, e: Event)
    requires Inv(s) && Enabled(s, e)
    ensures SleepersOk(Next(s, e))
  {
    var s' := Next(s, e);
    SameSize(s, e);
    hide Next, Enabled, CpusOk, PtOk, LocksOk, ProcsOk;
    forall p | 0 <= p < |s'.procs| && (s'.procs[p].pc.SleepAcq? || s'.procs[p].pc.SleepRel?)
      ensures s'.procs[p].pc.c !in s'.conds
    {
      BeforeMarkStep(s, e, p);
    }
    forall p | 0 <= p < |s'.procs| && s'.procs[p].pc.SleepMark? && s'.procs[p].pc.c in s'.conds
      ensures WakerComing(s', s'.procs[p].pc.c, p)
    {
      AtMarkStep(s, e, p);
    }
    forall p | 0 <= p < |s'.procs| && s'.procs[p].state == Sleeping && s'.procs[p].chan.Some?
               && s'.procs[p].chan.value in s'.conds
      ensures WakerComing(s', s'.procs[p].chan.value, p)
    {
      AsleepStep(s, e, p);
    }
  }

  lemma StepKeeps(s: State, e: Event)
    requires Inv(s) && Enabled(s, e)
    ensures Inv(Next(s, e))
  {
    hide Next, Enabled, CpusOk, PtOk, LocksOk, ProcsOk, SleepersOk;
    CpusStep(s, e);
    PtStep(s, e);
    LocksStep(s, e);
    ProcsStep(s, e);
    SleepersStep(s, e);
  }

  lemma {:induction false} RunInv(s: State, es: seq<Event>)
    requires Init(s) && Feasible(s, es)
    ensures Inv(After(s, es))
  {
    if es != [] {
      RunInv(s, es[..|es| - 1]);
      hide Inv, Next;
      StepKeeps(After(s, es[..|es| - 1]), es[|es| - 1]);
    }
  }

  // ---------------------------------------------------------------- theorems

  /** No lost wakeup: a process SLEEPING on a channel whose condition holds is about to be found
      by a waker that has not passed its table entry yet. */
  lemma NoLostWakeup(s: State, es: seq<Event>, p: nat)
    requires Init(s) && Feasible(s, es) && p < |After(s, es).procs|
    requires After(s, es).procs[p].state == Sleeping
    ensures var t := After(s, es);
            && t.procs[p].chan.Some?
            && (t.procs[p].chan.value in t.conds ==>
                  exists q :: Heading(t, q, t.procs[p].chan.value, p))
  {
    RunInv(s, es);
  }

  /** When no wakeup is owed by anybody, whoever sleeps has a false condition: the system cannot
      be stuck with work to do. */
  lemma QuiescentSleepersMustWait(s: State, es: seq<Event>, p: nat)
    requires Init(s) && Feasible(s, es) && p < |After(s, es).procs|
    requires forall q :: 0 <= q < |After(s, es).procs| ==> After(s, es).procs[q].owed == {}
    requires After(s, es).procs[p].state == Sleeping
    ensures After(s, es).procs[p].chan.Some?
    ensures After(s, es).procs[p].chan.value !in After(s, es).conds
  {
    RunInv(s, es);
  }

  /** Spinlocks exclude, ptable.lock is handed over and never duplicated, and no process runs on
      two CPUs. */
  lemma MutualExclusion(s: State, es: seq<Event>, p: nat, q: nat)
    requires Init(s) && Feasible(s, es)
    requires p < |After(s, es).procs| && q < |After(s, es).procs| && p != q
    ensures var t := After(s, es);
            && !(HoldsPt(t.procs[p].pc) && HoldsPt(t.procs[q].pc))
            && (HeldLock(t.procs[p].pc).Some? ==> HeldLock(t.procs[p].pc) != HeldLock(t.procs[q].pc))
            && (forall i, j :: 0 <= i < j < |t.cpus| && t.cpus[i].Exec? ==> t.cpus[i] != t.cpus[j])
            && (forall i :: 0 <= i < |t.cpus| && t.cpus[i].Scan? ==> !HoldsPt(t.procs[p].pc))
  {
    RunInv(s, es);
    var t := After(s, es);
    hide After, Feasible, SleepersOk, ProcsOk;
    if HeldLock(t.procs[p].pc).Some? && HeldLock(t.procs[p].pc) == HeldLock(t.procs[q].pc) {
      LockExclusive(t, p, q, HeldLock(t.procs[p].pc).value);
    }
  }

  // ---------------------------------------------------------------- what sleep and wakeup return with

  predicate InSleep(pc: Pc) {
    || pc.SleepAcq? || pc.SleepRel? || pc.SleepMark? || pc.SleepSched? || pc.SleepOff? || pc.SleepBack? || pc.SleepRe?
  }

  predicate InWakeup(pc: Pc) { pc.WakeAcq? || pc.WakeScan? }

  /** A spinlock that is taken has the process running on its CPU as holder. */
  predicate LockHeld(s: State, l: nat) {
    && l in s.locks && Runs(s, s.locks[l])
    && HeldLock(s.procs[s.cpus[s.locks[l]].p].pc) == Some(l)
  }

  /** ptable.lock, when taken, belongs to the scheduler or to the process running on its CPU. */
  predicate PtHeld(s: State) {
    s.pt.Some? ==>
      && s.pt.value < |s.cpus|
      && (s.cpus[s.pt.value].Scan? || (Runs(s, s.pt.value) && HoldsPt(s.procs[s.cpus[s.pt.value].p].pc)))
  }

  predicate Held(s: State) { PtHeld(s) && forall l :: l in s.locks ==> LockHeld(s, l) }

  lemma PtHeldStep(s: State, e: Event)
    requires CpusOk(s) && PtOk(s) && ProcsOk(s) && PtHeld(s) && Enabled(s, e)
    ensures PtHeld(Next(s, e))
  {
    if !Outside(e) {
      ProcPtHeldStep(s, e);
    }
  }

  lemma ProcPtHeldStep(s: State, e: Event)
    requires CpusOk(s) && PtOk(s) && ProcsOk(s) && PtHeld(s) && Enabled(s, e) && !Outside(e)
    ensures PtHeld(ProcNext(s, e.k, s.cpus[e.k].p, e))
  {
    assert OnCpu(s.procs[s.cpus[e.k].p].pc);
  }

  lemma LockHeldStep(s: State, e: Event, l: nat)
    requires CpusOk(s) && PtOk(s) && LocksOk(s) && ProcsOk(s) && Enabled(s, e) && l in Next(s, e).locks
    requires l in s.locks ==> LockHeld(s, l)
    ensures LockHeld(Next(s, e), l)
  {
    if Outside(e) {
      assert LockHeld(s, l);
    } else {
      ProcLockHeldStep(s, e, l);
    }
  }

  lemma ProcLockHeldStep(s: State, e: Event, l: nat)
    requires CpusOk(s) && LocksOk(s) && Enabled(s, e) && !Outside(e)
    requires l in ProcNext(s, e.k, s.cpus[e.k].p, e).locks && (l in s.locks ==> LockHeld(s, l))
    ensures LockHeld(ProcNext(s, e.k, s.cpus[e.k].p, e), l)
  {
    assert OnCpu(s.procs[s.cpus[e.k].p].pc);
  }

  /** In every run, every lock that is taken has a holder, who is running on the CPU the lock remembers: no path
      through sleep, wakeup or yield leaves one taken. */
  lemma {:induction false} TakenLocksAreHeld(s: State, es: seq<Event>)
    requires Init(s) && Feasible(s, es)
    ensures Held(After(s, es))
  {
    if es != [] {
      var z, e := After(s, es[..|es| - 1]), es[|es| - 1];
      TakenLocksAreHeld(s, es[..|es| - 1]);
      RunInv(s, es[..|es| - 1]);
      hide Next, Enabled, CpusOk, PtOk, LocksOk, ProcsOk, SleepersOk, LockHeld, PtHeld, After, Feasible;
      PtHeldStep(z, e);
      forall l | l in Next(z, e).locks ensures LockHeld(Next(z, e), l) {
        LockHeldStep(z, e, l);
      }
    }
  }

  /** How a step can change where a process is in sleep or wakeup, and the lock it holds there. */
  lemma CallStep(s: State, e: Event, p: nat)
    requires ProcsOk(s) && Enabled(s, e) && p < |s.procs| && p < |Next(s, e).procs|
    ensures var pc, pc' := s.procs[p].pc, Next(s, e).procs[p].pc;
            && (InSleep(pc) && InSleep(pc') ==> pc'.c == pc.c)
            && (InSleep(pc) && !InSleep(pc') ==> HeldLock(pc') == Some(pc.c.lock))
            && (!InSleep(pc) && InSleep(pc') ==> HeldLock(pc) == Some(pc'.c.lock))
            && (InWakeup(pc) || InWakeup(pc') ==> HeldLock(pc') == HeldLock(pc))
  {
    if !Outside(e) {
      ProcCallStep(s, e, p);
    }
  }

  lemma ProcCallStep(s: State, e: Event, p: nat)
    requires Enabled(s, e) && !Outside(e) && p < |s.procs| && p < |ProcNext(s, e.k, s.cpus[e.k].p, e).procs|
    ensures var pc, pc' := s.procs[p].pc, ProcNext(s, e.k, s.cpus[e.k].p, e).procs[p].pc;
            && (InSleep(pc) && InSleep(pc') ==> pc'.c == pc.c)
            && (InSleep(pc) && !InSleep(pc') ==> HeldLock(pc') == Some(pc.c.lock))
            && (!InSleep(pc) && InSleep(pc') ==> HeldLock(pc) == Some(pc'.c.lock))
            && (InWakeup(pc) || InWakeup(pc') ==> HeldLock(pc') == HeldLock(pc))
  {
  }

  /** In every run, a process leaves sleep on a channel only holding that channel's lock, on the CPU it runs
      on; it entered holding it, and never changes the channel in between. */
  lemma SleepReturnsWithItsLock(s: State, es: seq<Event>, e: Event, p: nat)
    requires Init(s) && Feasible(s, es) && Enabled(After(s, es), e) && p < |After(s, es).procs|
    ensures var z, z' := After(s, es), Next(After(s, es), e);
            p < |z'.procs|
            && var pc, pc' := z.procs[p].pc, z'.procs[p].pc;
            && (InSleep(pc) && InSleep(pc') ==> pc'.c == pc.c)
            && (!InSleep(pc) && InSleep(pc') ==> HeldLock(pc) == Some(pc'.c.lock))
            && (InSleep(pc) && !InSleep(pc') ==>
                  && HeldLock(pc') == Some(pc.c.lock) && pc.c.lock in z'.locks
                  && z'.locks[pc.c.lock] < |z'.cpus| && z'.cpus[z'.locks[pc.c.lock]] == Exec(p))
  {
    RunInv(s, es);
    SleepReturnStep(After(s, es), e, p);
  }

  lemma SleepReturnStep(z: State, e: Event, p: nat)
    requires Inv(z) && Enabled(z, e) && p < |z.procs|
    ensures var z' := Next(z, e);
            p < |z'.procs|
            && var pc, pc' := z.procs[p].pc, z'.procs[p].pc;
            && (InSleep(pc) && InSleep(pc') ==> pc'.c == pc.c)
            && (!InSleep(pc) && InSleep(pc') ==> HeldLock(pc) == Some(pc'.c.lock))
            && (InSleep(pc) && !InSleep(pc') ==>
                  && HeldLock(pc') == Some(pc.c.lock) && pc.c.lock in z'.locks
                  && z'.locks[pc.c.lock] < |z'.cpus| && z'.cpus[z'.locks[pc.c.lock]] == Exec(p))
  {
    hide Next, Enabled, SleepersOk, PtOk, ProcsOk;
    SameSize(z, e);
    CallStep(z, e, p);
    StepKeeps(z, e);
    if HeldLock(Next(z, e).procs[p].pc).Some? { HolderRuns(Next(z, e), p); }
    hide CpusOk, LocksOk;
  }

  lemma HolderRuns(s: State, p: nat)
    requires CpusOk(s) && LocksOk(s) && p < |s.procs| && HeldLock(s.procs[p].pc).Some?
    ensures var l := HeldLock(s.procs[p].pc).value;
            l in s.locks && s.locks[l] < |s.cpus| && s.cpus[s.locks[l]] == Exec(p)
  {
  }

  /** In every run, wakeup neither takes nor drops its caller's lock. */
  lemma WakeupKeepsTheLock(s: State, es: seq<Event>, e: Event, p: nat)
    requires Init(s) && Feasible(s, es) && Enabled(After(s, es), e) && p < |After(s, es).procs|
    ensures var z, z' := After(s, es), Next(After(s, es), e);
            p < |z'.procs|
            && (InWakeup(z.procs[p].pc) || InWakeup(z'.procs[p].pc) ==>
                  HeldLock(z'.procs[p].pc) == HeldLock(z.procs[p].pc))
  {
    RunInv(s, es);
    SameSize(After(s, es), e);
    hide After, Feasible, InSleep, InWakeup, Next, Enabled;
    CallStep(After(s, es), e, p);
  }

  /** A sleeper stops sleeping only when it is killed or when a wakeup on its channel is at its entry, and
      then nothing else of it changes. */
  lemma WokenByItsChannel(s: State, e: Event, p: nat)
    requires ProcsOk(s) && Enabled(s, e) && p < |s.procs| && s.procs[p].state == Sleeping
    ensures p < |Next(s, e).procs|
    ensures Next(s, e).procs[p].state != Sleeping ==>
              && Next(s, e).procs[p] == s.procs[p].(state := Runnable)
              && ((e.Kill? && e.target == p) || ScansFor(s, e, p))
  {
    SameSize(s, e);
    if !Outside(e) {
      ProcWoken(s, e, p);
    }
  }

  /** The process taking the step is looking at entry `p` on behalf of the channel `p` sleeps on. */
  predicate ScansFor(s: State, e: Event, p: nat)
    requires p < |s.procs|
  {
    && Runs(s, e.k) && s.procs[s.cpus[e.k].p].pc.WakeScan? && s.procs[s.cpus[e.k].p].pc.i == p
    && Some(s.procs[s.cpus[e.k].p].pc.c) == s.procs[p].chan
  }

  lemma ProcWoken(s: State, e: Event, p: nat)
    requires ProcsOk(s) && Enabled(s, e) && !Outside(e) && p < |s.procs| && s.procs[p].state == Sleeping
    requires p < |ProcNext(s, e.k, s.cpus[e.k].p, e).procs|
    ensures var r := ProcNext(s, e.k, s.cpus[e.k].p, e).procs[p];
            r.state != Sleeping ==> r == s.procs[p].(state := Runnable) && ScansFor(s, e, p)
  {
    assert ProcOk(s.procs[s.cpus[e.k].p]);
  }

  /** kill leaves its target awake. */
  lemma KillWakes(s: State, e: Event)
    requires Enabled(s, e) && e.Kill? && e.target < |Next(s, e).procs|
    ensures Next(s, e).procs[e.target].state != Sleeping
  {
  }

  // ---------------------------------------------------------------- calls go on

  predicate InYield(pc: Pc) { pc.YieldMark? || pc.YieldSched? || pc.YieldOff? || pc.YieldBack? }

  /** How many steps of its own a process has left in sleep, wakeup or yield, with `n` entries in the table; being
      switched in counts as one. */
  function Left(pc: Pc, n: nat): nat {
    match pc
    case SleepAcq(_) => 7
    case SleepRel(_) => 6
    case SleepMark(_) => 5
    case SleepSched(_) => 4
    case SleepOff(_) => 3
    case SleepBack(_) => 2
    case SleepRe(_) => 1
    case WakeAcq(_, _) => n + 2
    case WakeScan(_, i, _) => if i < n then n + 1 - i else 1
    case YieldMark => 4
    case YieldSched => 3
    case YieldOff => 2
    case YieldBack => 1
    case _ => 0
  }

  /** The step by which a process at `pc` on CPU `k` goes on. */
  function Continue(pc: Pc, k: nat, n: nat): Event
    requires OnCpu(pc) && (InSleep(pc) || InWakeup(pc) || InYield(pc))
  {
    match pc
    case SleepAcq(_) => SleepAcquire(k)
    case SleepRel(_) => SleepRelease(k)
    case SleepMark(_) => SleepMarks(k)
    case SleepSched(_) => SwitchOut(k)
    case SleepBack(_) => SleepResume(k)
    case SleepRe(_) => SleepReacquire(k)
    case WakeAcq(_, _) => WakeAcquire(k)
    case WakeScan(_, i, _) => if i < n then WakeOne(k) else WakeDone(k)
    case YieldMark => YieldMarks(k)
    case YieldSched => SwitchOut(k)
    case YieldBack => YieldResume(k)
  }

  /** It wants a lock that somebody holds. */
  predicate Spins(s: State, pc: Pc) {
    ((pc.SleepAcq? || pc.WakeAcq?) && s.pt.Some?) || (pc.SleepRe? && pc.c.lock in s.locks)
  }

  /** A process that is running inside sleep, wakeup or yield can take its next step unless it spins on a lock, and
      each such step brings it one nearer to the end of the call. */
  lemma CallGoesOn(s: State, k: nat)
    requires Inv(s) && Runs(s, k) && !Spins(s, s.procs[s.cpus[k].p].pc)
    requires var pc := s.procs[s.cpus[k].p].pc; InSleep(pc) || InWakeup(pc) || InYield(pc)
    ensures var p := s.cpus[k].p;
            && OnCpu(s.procs[p].pc)
            && var e := Continue(s.procs[p].pc, k, s.n);
            && Enabled(s, e) && p < |Next(s, e).procs|
            && Left(Next(s, e).procs[p].pc, s.n) == Left(s.procs[p].pc, s.n) - 1
  {
    hide PtOk, LocksOk, SleepersOk, ProcEnabled, ProcNext, Left, InSleep, InWakeup, InYield;
    var p := s.cpus[k].p;
    assert OnCpu(s.procs[p].pc);
    ProcGoesOn(s, k, p);
    NotOutside(s.procs[p].pc, k, s.n);
  }

  lemma NotOutside(pc: Pc, k: nat, n: nat)
    requires OnCpu(pc) && (InSleep(pc) || InWakeup(pc) || InYield(pc))
    ensures var e := Continue(pc, k, n); !Outside(e) && e.k == k && !e.Sleep? && !e.YieldAcquire?
  {
  }

  lemma ProcGoesOn(s: State, k: nat, p: nat)
    requires k < |s.cpus| && s.n <= |s.procs| && p < |s.procs| && OnCpu(s.procs[p].pc) && !Spins(s, s.procs[p].pc)
    requires var pc := s.procs[p].pc; InSleep(pc) || InWakeup(pc) || InYield(pc)
    ensures var e := Continue(s.procs[p].pc, k, s.n);
            && ProcEnabled(s, s.procs[p], e) && p < |ProcNext(s, k, p, e).procs|
            && Left(ProcNext(s, k, p, e).procs[p].pc, s.n) == Left(s.procs[p].pc, s.n) - 1
  {
  }

  /** Whoever holds the lock of a channel whose condition is false, and owes no wakeup, can call sleep on it; whoever
      is inside no call can call wakeup, and yield once ptable.lock is free. */
  lemma CallBegins(s: State, k: nat, c: Chan)
    requires Inv(s) && Runs(s, k)
    ensures var p, q := s.cpus[k].p, s.procs[s.cpus[k].p];
            && (p < s.n && q.pc == Hold(c.lock) && c !in s.conds && q.owed == {} ==>
                  && Enabled(s, Sleep(k, c)) && p < |Next(s, Sleep(k, c)).procs|
                  && var pc := Next(s, Sleep(k, c)).procs[p].pc;
                  InSleep(pc) && pc.c == c && Left(pc, s.n) == 7)
            && (q.pc.Free? || q.pc.Hold? ==>
                  && Enabled(s, Wakeup(k, c)) && p < |Next(s, Wakeup(k, c)).procs|
                  && var pc := Next(s, Wakeup(k, c)).procs[p].pc;
                  InWakeup(pc) && pc.c == c && Left(pc, s.n) == s.n + 2)
            && (p < s.n && q.pc.Free? && s.pt == None ==>
                  && Enabled(s, YieldAcquire(k)) && p < |Next(s, YieldAcquire(k)).procs|
                  && var pc := Next(s, YieldAcquire(k)).procs[p].pc;
                  InYield(pc) && Left(pc, s.n) == 4)
  {
  }

  /** The scheduler's own step. */
  function SchedContinue(s: State, k: nat): Event
    requires k < |s.cpus| && !s.cpus[k].Exec?
  {
    match s.cpus[k]
    case Idle => SchedAcquire(k)
    case Scan(i) =>
      if i >= s.n || i >= |s.procs| then SchedRelease(k)
      else if s.procs[i].state == Runnable then SchedSwitch(k)
      else SchedSkip(k)
  }

  /** A scheduler goes on, unless it spins on ptable.lock: through the table entry by entry, running each one that is
      runnable, and back to the start. */
  lemma SchedulerGoesOn(s: State, k: nat)
    requires Inv(s) && k < |s.cpus| && !s.cpus[k].Exec? && (s.cpus[k].Idle? ==> s.pt == None)
    ensures var e := SchedContinue(s, k);
            && Enabled(s, e) && k < |Next(s, e).cpus|
            && match (s.cpus[k], Next(s, e).cpus[k])
               case (Idle, Scan(j)) => j == 0
               case (Scan(i), Scan(j)) => j == i + 1 && i < s.n && s.procs[i].state != Runnable
               case (Scan(i), Exec(p)) => p == i < s.n && s.procs[i].state == Runnable
               case (Scan(i), Idle) => i >= s.n
               case _ => false
  {
  }

  // ---------------------------------------------------------------- conditions and debts

  /** A condition is what was last stored in it, and a process owes a wakeup on a channel from when it makes the
      condition true until it has finished a wakeup on that channel. */
  lemma DebtsAreReal(s: State, e: Event, p: nat, c: Chan)
    requires ProcsOk(s) && Enabled(s, e) && p < |s.procs| && p < |Next(s, e).procs|
    ensures var s' := Next(s, e);
            var pc, pc' := s.procs[p].pc, s'.procs[p].pc;
            && (c in s'.conds <==> if e.SetCond? && e.c == c then e.v else c in s.conds)
            && (c in s'.procs[p].owed <==>
                  || (e.SetCond? && e.c == c && e.v && Runs(s, e.k) && s.cpus[e.k].p == p)
                  || (c in s.procs[p].owed && !(InWakeup(pc) && pc.c == c && !InWakeup(pc'))))
  {
    if !Outside(e) {
      ProcDebts(s, e, p, c);
    }
  }

  lemma ProcDebts(s: State, e: Event, p: nat, c: Chan)
    requires Enabled(s, e) && !Outside(e) && p < |s.procs| && p < |ProcNext(s, e.k, s.cpus[e.k].p, e).procs|
    ensures var s' := ProcNext(s, e.k, s.cpus[e.k].p, e);
            var pc, pc' := s.procs[p].pc, s'.procs[p].pc;
            && (c in s'.conds <==> if e.SetCond? && e.c == c then e.v else c in s.conds)
            && (c in s'.procs[p].owed <==>
                  || (e.SetCond? && e.c == c && e.v && s.cpus[e.k].p == p)
                  || (c in s.procs[p].owed && !(InWakeup(pc) && pc.c == c && !InWakeup(pc'))))
  {
  }

  /** A scheduler passes over an entry only if that is not runnable, runs exactly the entry it is at, and ends
      its pass only behind the last one. */
  lemma ScanSkipsNobody(s: State, e: Event, k: nat)
    requires Enabled(s, e) && k < |s.cpus| && s.cpus[k].Scan? && k < |Next(s, e).cpus|
    ensures var i := s.cpus[k].i;
            match Next(s, e).cpus[k]
            case Scan(j) => j == i || (j == i + 1 && i < s.n <= |s.procs| && s.procs[i].state != Runnable)
            case Exec(p) =>
              && p == i < s.n <= |s.procs| && s.procs[i].state == Runnable
              && i < |Next(s, e).procs| && Next(s, e).procs[i].state == Running
            case Idle => i >= s.n
  {
  }
}
