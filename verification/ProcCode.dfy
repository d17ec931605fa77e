/** The scan loops of proc.c, in place on the process table.  Each method is proved to do to the
    table what one step of ProcTable does, so the run theorems there are about this code. */
module ProcCode {
  import opened Common
  import opened ProcTable
  import opened ProcEffects

  datatype WaitResult = Child(pid: nat) | NoChildren | MustSleep

  class Ptable {
    var procs: seq<Proc>
    var nextpid: nat
    const initproc: nat
    var live: set<nat>     // pages handed out by kalloc for stacks and address spaces

    constructor (procs: seq<Proc>, nextpid: nat, initproc: nat, live: set<nat>)
      ensures this.procs == procs && this.nextpid == nextpid && this.initproc == initproc
      ensures this.live == live
    {
      this.procs, this.nextpid, this.initproc, this.live := procs, nextpid, initproc, live;
    }

    /** The machine state with this table. */
    ghost function On(s: State): State
      reads this
    {
      s.(procs := procs, nextpid := nextpid, live := live)
    }

    method Wakeup1(chan: Chan)
      modifies this`procs
      ensures procs == WakeAll(old(procs), chan)
      ensures forall i :: 0 <= i < |procs| ==>
                procs[i] == if SleepsOn(old(procs)[i], chan) then old(procs)[i].(state := Runnable) else old(procs)[i]
    {
      var i := 0;
      while i < |procs|
        invariant i <= |procs| == |old(procs)|
        invariant forall j :: 0 <= j < i ==> procs[j] == WokenIf(old(procs)[j], chan)
        invariant forall j :: i <= j < |procs| ==> procs[j] == old(procs)[j]
      {
        if procs[i].state == Sleeping && procs[i].chan == Some(chan) {
          procs := procs[i := procs[i].(state := Runnable)];
        }
        i := i + 1;
      }
      assert procs == WakeAll(old(procs), chan);
    }

    /** fork, given what kalloc and copyuvm return; -1 when there is no entry or no memory. */
    method Fork(p: nat, stack: Option<nat>, space: Option<nat>, ghost s: State, ghost k: nat)
      returns (pid: int)
      requires k < |s.cpus| && s.procs == procs && s.nextpid == nextpid && s.live == live
      requires p < |procs| && ProcEnabled(s, p, ProcTable.Fork(k, stack, space))
      modifies this
      ensures On(s) == ProcNext(s, k, p, ProcTable.Fork(k, stack, space))
      ensures pid != -1 <==> stack.Some? && space.Some? && FirstUnused(old(procs), 0) < |old(procs)|
      ensures pid != -1 ==> pid == old(nextpid)
    {
      var i := 0;
      while i < |procs| && procs[i].state != Unused
        invariant i <= |procs| && FirstUnused(procs, 0) == FirstUnused(procs, i)
      {
        i := i + 1;
      }
      if i == |procs| {
        return -1;
      }
      pid := nextpid;
      procs := procs[i := procs[i].(state := Embryo, pid := nextpid)];
      nextpid := nextpid + 1;
      procs := procs[i := procs[i].(kstack := stack)];
      if stack.None? {
        procs := procs[i := procs[i].(state := Unused)];
        pid := -1;
      } else if space.None? {
        procs := procs[i := procs[i].(pgdir := 0, kstack := None, state := Unused)];
        pid := -1;
      } else {
        procs := procs[i := procs[i].(pgdir := space.value, parent := Some(p))];
        live := live + {stack.value, space.value};
        procs := procs[i := procs[i].(state := Runnable, pc := YieldOff)];
      }
    }

    /** exit, up to the call of sched. */
    method Exit(p: nat)
      requires p < |procs| && p != initproc
      modifies this`procs
      ensures procs == Exited(old(procs), p, initproc)
    {
      if procs[p].parent.Some? {
        Wakeup1(WaitOn(procs[p].parent.value));
      }
      ghost var a := procs;
      ghost var zombies := false;
      var i := 0;
      while i < |procs|
        invariant i <= |procs| == |a| == |old(procs)|
        invariant zombies <==> exists j :: 0 <= j < i && a[j].parent == Some(p) && a[j].state == Zombie
        invariant forall j :: 0 <= j < |a| ==> procs[j] == PassedOn(a[j], p, initproc, j < i, zombies)
      {
        if procs[i].parent == Some(p) {
          procs := procs[i := procs[i].(parent := Some(initproc))];
          if procs[i].state == Zombie {
            Wakeup1(WaitOn(initproc));
            zombies := true;
          }
        }
        i := i + 1;
      }
      assert zombies == HasZombieKid(a, p);
      assert procs == if zombies then WakeAll(Reparented(a, p, initproc), WaitOn(initproc))
                      else Reparented(a, p, initproc);
      procs := procs[p := procs[p].(state := Zombie, pc := ExitSched)];
    }

    /** One pass of wait's loop for process `p`. */
    method Wait(p: nat, ghost s: State, ghost k: nat) returns (r: WaitResult)
      requires p < |procs| && procs[p].parent != Some(p) && k < |s.cpus|
      requires s.procs == procs && s.nextpid == nextpid && s.live == live
      modifies this
      ensures On(s).(pt := Waited(s, k, p).pt) == Waited(s, k, p)
      ensures r.Child? <==> HasZombieKid(old(procs), p)
      ensures r.Child? ==> r.pid == old(procs)[FirstZombieChild(old(procs), p, 0)].pid
      ensures r.MustSleep? <==>
                !HasZombieKid(old(procs), p) && HasKids(old(procs), p) && !old(procs)[p].killed
    {
      var havekids := false;
      var i := 0;
      while i < |procs|
        invariant i <= |procs| && procs == old(procs) && live == old(live) && nextpid == old(nextpid)
        invariant havekids <==> exists j :: 0 <= j < i && procs[j].parent == Some(p)
        invariant FirstZombieChild(procs, p, 0) == FirstZombieChild(procs, p, i)
      {
        if procs[i].parent == Some(p) {
          havekids := true;
          if procs[i].state == Zombie {
            r := Child(procs[i].pid);
            live := live - (if procs[i].kstack.Some? then {procs[i].kstack.value} else {});
            live := live - {procs[i].pgdir};
            procs := procs[i := procs[i].(kstack := None, pid := 0, parent := None, killed := false,
                                          state := Unused, pc := Nowhere)];
            procs := procs[p := procs[p].(chan := None, pc := User)];
            return;
          }
        }
        i := i + 1;
      }
      if !havekids || procs[p].killed {
        procs := procs[p := procs[p].(chan := None, pc := User)];
        r := NoChildren;
      } else {
        procs := procs[p := procs[p].(state := Sleeping, chan := Some(WaitOn(p)), pc := WaitSched)];
        r := MustSleep;
      }
    }

    /** kill: 0 on success, -1 when no entry has the pid.  The first entry with the pid is marked and not asleep
        afterwards, and nothing else changes. */
    method Kill(pid: nat, ghost s: State, ghost k: nat, ghost p: nat) returns (r: int)
      requires k < |s.cpus| && p < |procs| && s.procs == procs && s.nextpid == nextpid && s.live == live
      requires ProcEnabled(s, p, ProcTable.Kill(k, pid))
      modifies this`procs
      ensures On(s) == ProcNext(s, k, p, ProcTable.Kill(k, pid))
      ensures r == if exists i :: 0 <= i < |old(procs)| && old(procs)[i].pid == pid then 0 else -1
      ensures |procs| == |old(procs)|
      ensures forall i :: 0 <= i < |procs| ==>
                if IsFirst(old(procs), pid, i) then KilledFrom(old(procs)[i], procs[i])
                else procs[i] == old(procs)[i]
    {
      var i := 0;
      while i < |procs|
        invariant i <= |procs| && procs == old(procs)
        invariant FirstWithPid(procs, pid, 0) == FirstWithPid(procs, pid, i)
        invariant forall j :: 0 <= j < i ==> procs[j].pid != pid
      {
        if procs[i].pid == pid {
          procs := procs[i := procs[i].(killed := true)];
          if procs[i].state == Sleeping {
            procs := procs[i := procs[i].(state := Runnable)];
          }
          return 0;
        }
        i := i + 1;
      }
      return -1;
    }
  }

  /** An entry during exit's loop: handed to init once visited, and woken once a zombie child has
      been seen. */
  function PassedOn(q: Proc, p: nat, init: nat, visited: bool, zombies: bool): Proc {
    var r := if visited && q.parent == Some(p) then q.(parent := Some(init)) else q;
    if zombies then WokenIf(r, WaitOn(init)) else r
  }
}
