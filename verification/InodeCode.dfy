/**
 * The inode cache's code: iget's scan for a slot, ialloc's scan for a number, and iput, each a run of the
 * InodeCache machine.
 */
module InodeCode {
  import opened Common
  import opened InodeCache

  class Icache {
    var slots: seq<Slot>
    var disk: seq<Dinode>
    ghost var ptrs: map<nat, Ptr>
    ghost var allocs: map<nat, nat>

    ghost function St(): State
      reads this
    {
      State(slots, disk, ptrs, allocs)
    }

    /** iinit over a disk whose free inodes have no links: `n` unreferenced slots. */
    constructor (n: nat, disk: seq<Dinode>)
      requires forall x :: 0 <= x < |disk| && disk[x].typ == 0 ==> disk[x].nlink == 0
      ensures Safe(St()) && Boot(St()) && |slots| == n && this.disk == disk
      ensures forall i :: 0 <= i < n ==> slots[i] == Slot(0, 0, false, false, Dinode(0, 0, []))
    {
      slots := seq(n, _ => Slot(0, 0, false, false, Dinode(0, 0, [])));
      this.disk := disk;
      ptrs, allocs := map[], map[];
      new;
      BootSafe(St());
    }

    /** iget's scan: the referenced slot of `x`, or else the first unreferenced one; None is the panic
        "no inodes", which happens exactly when every slot is referenced by another inode. */
    method FindSlot(x: nat) returns (r: Option<nat>)
      ensures r.Some? ==> Picks(slots, x, r.value)
      ensures r.None? <==> forall j :: 0 <= j < |slots| ==> slots[j].ref > 0 && slots[j].inum != x
    {
      var empty: Option<nat> := None;
      for i := 0 to |slots|
        invariant forall j :: 0 <= j < i ==> !(slots[j].ref > 0 && slots[j].inum == x)
        invariant empty.Some? ==> empty.value < i && slots[empty.value].ref == 0
        invariant empty.None? ==> forall j :: 0 <= j < i ==> slots[j].ref > 0
      {
        if slots[i].ref > 0 && slots[i].inum == x {
          return Some(i);
        }
        if empty.None? && slots[i].ref == 0 {
          empty := Some(i);
        }
      }
      return empty;
    }

    /** iget of any number, in use or not.  The invariant of runs in which no pointer outlives its inode stays
        if and only if the number is allocated and neither an iput nor an ialloc of it is under way. */
    method Iget(ghost t: nat, x: nat) returns (r: Option<nat>)
      requires Sound(St()) && t !in ptrs && t !in allocs && x < |disk|
      modifies this`slots, this`ptrs
      ensures r.Some? ==>
                && Enabled(old(St()), Event.Iget(t, x, r.value))
                && St() == Next(old(St()), Event.Iget(t, x, r.value))
      ensures r.None? ==> St() == old(St())
      ensures r.None? <==> forall j :: 0 <= j < |old(slots)| ==> old(slots)[j].ref > 0 && old(slots)[j].inum != x
      ensures Sound(St())
      ensures old(Safe(St())) ==> (Safe(St()) <==> r.None? || old(Gettable(St(), x)))
    {
      hide Sound, Safe, Gettable;
      r := FindSlot(x);
      if r.Some? {
        SoundStep(St(), Event.Iget(t, x, r.value));
        if Safe(St()) { SafeStepIff(St(), Event.Iget(t, x, r.value)); }
        if slots[r.value].ref > 0 {
          slots := slots[r.value := slots[r.value].(ref := slots[r.value].ref + 1)];
        } else {
          slots := slots[r.value := Slot(x, 1, false, false, slots[r.value].copy)];
        }
        ptrs := ptrs[t := Ptr(r.value, Idle)];
        assert St() == Next(old(St()), Event.Iget(t, x, r.value));
      }
    }

    /** ilock of an inode that is not locked.  It panics "no type" exactly when it has to read the disk and
        finds a free inode there, which cannot happen where no pointer outlives its inode. */
    method Ilock(ghost t: nat, i: nat) returns (panicked: bool)
      requires Sound(St()) && Live(St(), t) && ptrs[t].slot == i && ptrs[t].phase in {Idle, Fresh} && !slots[i].busy
      modifies this`slots, this`ptrs
      ensures panicked <==> !old(slots)[i].valid && disk[old(slots)[i].inum].typ == 0
      ensures old(Safe(St())) ==> !panicked && Safe(St())
      ensures Sound(St())
      ensures !panicked ==>
                && ptrs == old(ptrs)[t := Ptr(i, Locked)]
                && slots == old(slots)[i := old(slots)[i].(busy := true, valid := true,
                                                           copy := disk[old(slots)[i].inum])]
    {
      hide Sound, Safe, Next;
      var e := Event.Ilock(t);
      SoundStep(St(), e);
      if Safe(St()) { SafeStep(St(), e); StillAllocated(St(), t); }
      slots := slots[i := slots[i].(busy := true)];
      ptrs := ptrs[t := Ptr(i, if slots[i].valid then Locked else Filling)];
      LockNext(old(St()), t);
      assert St() == Next(old(St()), e);
      if !slots[i].valid {
        if disk[slots[i].inum].typ == 0 {
          return true;
        }
        SoundStep(St(), Fill(t));
        if Safe(St()) { SafeStep(St(), Fill(t)); }
        ghost var s1 := St();
        FillNext(s1, t);
        slots := slots[i := slots[i].(valid := true, copy := disk[slots[i].inum])];
        ptrs := ptrs[t := Ptr(i, Locked)];
        assert St() == Next(s1, Fill(t));
      }
      LockedCopy(St(), t);
      return false;
    }

    /** ialloc: the lowest free number is claimed on disk, and the caller gets a pointer to it.  None is a panic, for
        want of a free number, or of a slot: every one is referenced, by another number. */
    method Ialloc(ghost t: nat, typ: nat) returns (r: Option<nat>)
      requires Sound(St()) && t !in ptrs && t !in allocs && typ != 0
      modifies this
      ensures Sound(St()) && (old(Safe(St())) ==> Safe(St()))
      ensures r.None? <==>
                forall x :: LowestFree(old(disk), x) ==>
                  forall j :: 0 <= j < |old(slots)| ==> old(slots)[j].ref > 0 && old(slots)[j].inum != x
      ensures r.Some? ==>
                && Enabled(old(St()), Event.Ialloc(t, r.value, typ))
                && (forall y :: 1 <= y < r.value ==> old(disk)[y].typ != 0)
                && (exists i ::
                      var mid := Next(old(St()), Event.Ialloc(t, r.value, typ));
                      Enabled(mid, IgetNew(t, i)) && St() == Next(mid, IgetNew(t, i)))
    {
      hide Sound, Safe;
      var x := 1;
      while x < |disk|
        invariant 1 <= x && forall y :: 1 <= y < x && y < |disk| ==> disk[y].typ != 0
        invariant St() == old(St())
      {
        if disk[x].typ == 0 {
          assert forall y :: LowestFree(disk, y) <==> y == x;
          assert LowestFree(old(disk), x);
          SoundStep(St(), Event.Ialloc(t, x, typ));
          if Safe(St()) { SafeStep(St(), Event.Ialloc(t, x, typ)); }
          disk := disk[x := Dinode(typ, 0, [])];
          allocs := allocs[t := x];
          ghost var mid := St();
          assert mid == Next(old(St()), Event.Ialloc(t, x, typ));
          var i := FindSlot(x);
          if i.None? {
            return None;
          }
          SoundStep(mid, IgetNew(t, i.value));
          if Safe(mid) { SafeStep(mid, IgetNew(t, i.value)); }
          slots := slots[i.value := Gotten(slots[i.value], x)];
          ptrs := ptrs[t := Ptr(i.value, Fresh)];
          allocs := allocs - {t};
          assert Enabled(mid, IgetNew(t, i.value)) && St() == Next(mid, IgetNew(t, i.value));
          return Some(x);
        }
        x := x + 1;
      }
      return None;
    }

    /** iput by a process that is not interrupted: one reference goes, and the inode is freed on disk
        exactly when that was the last reference to a valid inode without links. */
    method Iput(ghost t: nat, i: nat)
      requires Sound(St()) && Live(St(), t) && ptrs[t] == Ptr(i, Idle)
      modifies this
      ensures Sound(St()) && (old(Safe(St())) ==> Safe(St()))
      ensures ptrs == old(ptrs) - {t} && allocs == old(allocs)
      ensures var f := old(slots)[i];
              && |slots| == |old(slots)| && slots[i].inum == f.inum && slots[i].ref == f.ref - 1
              && (forall j :: 0 <= j < |slots| && j != i ==> slots[j] == old(slots)[j])
              && disk == (if LastDrop(f) then old(disk)[f.inum := Dinode(0, 0, [])] else old(disk))
    {
      hide Sound, Safe;
      SoundRef(St(), t);
      if LastDrop(slots[i]) {
        IputRun(St(), t);
        slots := slots[i := slots[i].(busy := true)];
        slots := slots[i := slots[i].(copy := slots[i].copy.(body := []))];
        disk := disk[slots[i].inum := slots[i].copy];
        slots := slots[i := slots[i].(copy := slots[i].copy.(typ := 0))];
        disk := disk[slots[i].inum := slots[i].copy];
        slots := slots[i := slots[i].(busy := false, valid := false)];
      } else {
        SoundStep(St(), IputDrop(t));
        if Safe(St()) { SafeStep(St(), IputDrop(t)); }
      }
      slots := slots[i := slots[i].(ref := slots[i].ref - 1)];
      ptrs := ptrs - {t};
      assert St() == if LastDrop(old(slots)[i]) then IputAll(old(St()), t) else Next(old(St()), IputDrop(t));
    }
  }

  predicate LowestFree(disk: seq<Dinode>, x: nat) {
    1 <= x < |disk| && disk[x].typ == 0 && forall y :: 1 <= y < x ==> disk[y].typ != 0
  }

  lemma SoundRef(s: State, t: nat)
    requires Sound(s) && Live(s, t)
    ensures s.slots[s.ptrs[t].slot].ref > 0
  {
    Referenced(s, t);
  }

  lemma LockNext(s: State, t: nat)
    requires Enabled(s, Event.Ilock(t))
    ensures var i := s.ptrs[t].slot;
            Next(s, Event.Ilock(t)) == s.(slots := s.slots[i := s.slots[i].(busy := true)],
                                          ptrs := s.ptrs[t := Ptr(i, if s.slots[i].valid then Locked else Filling)])
  {
  }

  lemma FillNext(s: State, t: nat)
    requires Enabled(s, Fill(t))
    ensures var i := s.ptrs[t].slot;
            Next(s, Fill(t)) == s.(slots := s.slots[i := s.slots[i].(valid := true, copy := s.disk[s.slots[i].inum])],
                                   ptrs := s.ptrs[t := Ptr(i, Locked)])
  {
  }

  lemma StillAllocated(s: State, t: nat)
    requires Safe(s) && Live(s, t) && s.ptrs[t].phase in {Idle, Fresh}
    ensures s.disk[Inum(s, t)].typ != 0
  {
    assert UserOk(s, t);
  }

  lemma LockedCopy(s: State, t: nat)
    requires Sound(s) && Live(s, t) && s.ptrs[t].phase == Locked
    ensures s.slots[s.ptrs[t].slot].busy && s.slots[s.ptrs[t].slot].valid
    ensures s.slots[s.ptrs[t].slot].copy == s.disk[Inum(s, t)]
  {
    var i := s.ptrs[t].slot;
    Referenced(s, t);
    assert PtrOk(s, t) && InSync(s, i) && HasOwner(s, i);
    assert !Apart(s, i);
  }

  /** iput's four steps in a row. */
  lemma IputRun(s: State, t: nat)
    requires Sound(s) && Live(s, t) && s.ptrs[t].phase == Idle && LastDrop(s.slots[s.ptrs[t].slot])
    ensures Sound(IputAll(s, t)) && (Safe(s) ==> Safe(IputAll(s, t)))
  {
    hide Sound, Safe;
    var f := s.slots[s.ptrs[t].slot];
    BothStep(s, IputStart(t));
    var s1 := Next(s, IputStart(t));
    assert s1 == With(s, t, f.(busy := true), Trunc);
    BothStep(s1, Itrunc(t));
    var s2 := Next(s1, Itrunc(t));
    var d := f.copy.(body := []);
    assert s2 == With(s, t, f.(busy := true, copy := d), Emptied).(disk := s.disk[f.inum := d]);
    BothStep(s2, Ifree(t));
    var s3 := Next(s2, Ifree(t));
    var d' := d.(typ := 0);
    assert s3 == With(s, t, f.(busy := true, copy := d'), Freed).(disk := s.disk[f.inum := d']);
    BothStep(s3, IputEnd(t));
    assert Next(s3, IputEnd(t)).ptrs == s.ptrs - {t};
    assert Next(s3, IputEnd(t)) == IputAll(s, t);
  }

  lemma BothStep(s: State, e: Event)
    requires Sound(s) && Enabled(s, e) && !e.Iget?
    ensures Sound(Next(s, e)) && (Safe(s) ==> Safe(Next(s, e)))
  {
    hide Sound, Safe, Enabled, Next;
    SoundStep(s, e);
    if Safe(s) { SafeStep(s, e); }
  }

  /** The state iput's release of an unlinked inode leaves. */
  ghost function IputAll(s: State, t: nat): State
    requires Live(s, t)
  {
    var i := s.ptrs[t].slot;
    var f := s.slots[i];
    var d := f.copy.(typ := 0, body := []);
    s.(slots := s.slots[i := Slot(f.inum, Less(f.ref), false, false, d)], disk := s.disk[f.inum := d],
       ptrs := s.ptrs - {t})
  }
}
