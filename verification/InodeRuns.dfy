/**
 * Runs of the inode cache through a single pointer and the first slot: opening, unlinking and releasing
 * inode `x` when nothing else is going on.
 */
module InodeRuns {
  import opened Common
  import opened InodeCache

  /** Nobody has a pointer or is inside ialloc. */
  ghost predicate Quiet(s: State) {
    && s.ptrs == map[] && s.allocs == map[] && |s.slots| >= 1
    && forall j :: 0 <= j < |s.slots| ==> s.slots[j].ref == 0
  }

  /** Pointer `t` alone, to the first slot, which is `f`. */
  function One(slots: seq<Slot>, f: Slot, disk: seq<Dinode>, t: nat, p: Phase): State
    requires |slots| >= 1
  {
    State(slots[0 := f], disk, map[t := Ptr(0, p)], map[])
  }

  // What each step does in such a state.

  lemma Opens(s: State, t: nat, x: nat)
    requires Quiet(s) && x < |s.disk|
    ensures Enabled(s, Iget(t, x, 0))
    ensures Next(s, Iget(t, x, 0)) == One(s.slots, Slot(x, 1, false, false, s.slots[0].copy), s.disk, t, Idle)
  {
  }

  lemma Locks(slots: seq<Slot>, f: Slot, disk: seq<Dinode>, t: nat)
    requires |slots| >= 1 && f.inum < |disk| && !f.busy && !f.valid
    ensures Enabled(One(slots, f, disk, t, Idle), Ilock(t))
    ensures Next(One(slots, f, disk, t, Idle), Ilock(t)) == One(slots, f.(busy := true), disk, t, Filling)
  {
  }

  lemma Fills(slots: seq<Slot>, f: Slot, disk: seq<Dinode>, t: nat)
    requires |slots| >= 1 && f.inum < |disk| && disk[f.inum].typ != 0
    ensures Enabled(One(slots, f, disk, t, Filling), Fill(t))
    ensures Next(One(slots, f, disk, t, Filling), Fill(t)) ==
            One(slots, f.(valid := true, copy := disk[f.inum]), disk, t, Locked)
  {
  }

  lemma Edits(slots: seq<Slot>, f: Slot, disk: seq<Dinode>, t: nat, d: Dinode)
    requires |slots| >= 1 && f.inum < |disk| && d.typ != 0
    ensures Enabled(One(slots, f, disk, t, Locked), Edit(t, d))
    ensures Next(One(slots, f, disk, t, Locked), Edit(t, d)) == One(slots, f.(copy := d), disk, t, Dirty)
  {
  }

  lemma Updates(slots: seq<Slot>, f: Slot, disk: seq<Dinode>, t: nat)
    requires |slots| >= 1 && f.inum < |disk|
    ensures Enabled(One(slots, f, disk, t, Dirty), Iupdate(t))
    ensures Next(One(slots, f, disk, t, Dirty), Iupdate(t)) == One(slots, f, disk[f.inum := f.copy], t, Locked)
  {
  }

  lemma Unlocks(slots: seq<Slot>, f: Slot, disk: seq<Dinode>, t: nat)
    requires |slots| >= 1 && f.inum < |disk|
    ensures Enabled(One(slots, f, disk, t, Locked), Iunlock(t))
    ensures Next(One(slots, f, disk, t, Locked), Iunlock(t)) == One(slots, f.(busy := false), disk, t, Idle)
  {
  }

  lemma Starts(slots: seq<Slot>, f: Slot, disk: seq<Dinode>, t: nat)
    requires |slots| >= 1 && f.inum < |disk| && LastDrop(f)
    ensures Enabled(One(slots, f, disk, t, Idle), IputStart(t))
    ensures Next(One(slots, f, disk, t, Idle), IputStart(t)) == One(slots, f.(busy := true), disk, t, Trunc)
  {
  }

  lemma Truncates(slots: seq<Slot>, f: Slot, disk: seq<Dinode>, t: nat)
    requires |slots| >= 1 && f.inum < |disk|
    ensures Enabled(One(slots, f, disk, t, Trunc), Itrunc(t))
    ensures var d := f.copy.(body := []);
            Next(One(slots, f, disk, t, Trunc), Itrunc(t)) == One(slots, f.(copy := d), disk[f.inum := d], t, Emptied)
  {
  }

  lemma Frees(slots: seq<Slot>, f: Slot, disk: seq<Dinode>, t: nat)
    requires |slots| >= 1 && f.inum < |disk|
    ensures Enabled(One(slots, f, disk, t, Emptied), Ifree(t))
    ensures var d := f.copy.(typ := 0);
            Next(One(slots, f, disk, t, Emptied), Ifree(t)) == One(slots, f.(copy := d), disk[f.inum := d], t, Freed)
  {
  }

  lemma Ends(slots: seq<Slot>, f: Slot, disk: seq<Dinode>, t: nat)
    requires |slots| >= 1 && f.inum < |disk| && forall j :: 0 <= j < |slots| ==> slots[j].ref == 0
    requires f.ref == 1
    ensures Enabled(One(slots, f, disk, t, Freed), IputEnd(t))
    ensures var z := Next(One(slots, f, disk, t, Freed), IputEnd(t)); Quiet(z) && z.disk == disk
  {
    var z := Next(One(slots, f, disk, t, Freed), IputEnd(t));
    assert z.ptrs == map[];
  }

  // And whole stretches.

  /** The slot of inode `x` after it has been opened, unlinked and unlocked. */
  function HeldSlot(x: nat, d: Dinode): Slot { Slot(x, 1, false, true, d) }

  /** open and unlink. */
  function UnlinkRun(t: nat, x: nat, d: Dinode): seq<Event> {
    [] + [Iget(t, x, 0)] + [Ilock(t)] + [Fill(t)] + [Edit(t, d)] + [Iupdate(t)] + [Iunlock(t)]
  }

  lemma Unlinks(s: State, t: nat, x: nat)
    requires Quiet(s) && x < |s.disk| && s.disk[x].typ != 0
    ensures var d := s.disk[x].(nlink := 0);
            && Feasible(s, UnlinkRun(t, x, d))
            && After(s, UnlinkRun(t, x, d)) == One(s.slots, HeldSlot(x, d), s.disk[x := d], t, Idle)
  {
    hide Enabled, Next, After, Feasible;
    var d := s.disk[x].(nlink := 0);
    var f := Slot(x, 1, false, false, s.slots[0].copy);
    StartRun(s);
    Opens(s, t, x);
    Snoc(s, [], Iget(t, x, 0));
    Locks(s.slots, f, s.disk, t);
    Snoc(s, [] + [Iget(t, x, 0)], Ilock(t));
    Fills(s.slots, f.(busy := true), s.disk, t);
    Snoc(s, [] + [Iget(t, x, 0)] + [Ilock(t)], Fill(t));
    Edits(s.slots, Slot(x, 1, true, true, s.disk[x]), s.disk, t, d);
    Snoc(s, [] + [Iget(t, x, 0)] + [Ilock(t)] + [Fill(t)], Edit(t, d));
    Updates(s.slots, Slot(x, 1, true, true, d), s.disk, t);
    Snoc(s, [] + [Iget(t, x, 0)] + [Ilock(t)] + [Fill(t)] + [Edit(t, d)], Iupdate(t));
    Unlocks(s.slots, Slot(x, 1, true, true, d), s.disk[x := d], t);
    Snoc(s, [] + [Iget(t, x, 0)] + [Ilock(t)] + [Fill(t)] + [Edit(t, d)] + [Iupdate(t)], Iunlock(t));
  }

  function ReleaseRun(t: nat): seq<Event> { [] + [IputStart(t)] + [Itrunc(t)] + [Ifree(t)] + [IputEnd(t)] }

  /** The iput that releases it. */
  lemma Releases(slots: seq<Slot>, x: nat, d: Dinode, disk: seq<Dinode>, t: nat)
    requires |slots| >= 1 && x < |disk| && d.nlink == 0 && forall j :: 0 <= j < |slots| ==> slots[j].ref == 0
    ensures var z := One(slots, HeldSlot(x, d), disk, t, Idle);
            && Feasible(z, ReleaseRun(t)) && Quiet(After(z, ReleaseRun(t)))
            && After(z, ReleaseRun(t)).disk == disk[x := Dinode(0, 0, [])]
  {
    hide Enabled, Next, After, Feasible;
    var z := One(slots, HeldSlot(x, d), disk, t, Idle);
    var d1, d2 := d.(body := []), Dinode(0, 0, []);
    StartRun(z);
    Starts(slots, HeldSlot(x, d), disk, t);
    Snoc(z, [], IputStart(t));
    Truncates(slots, Slot(x, 1, true, true, d), disk, t);
    Snoc(z, [] + [IputStart(t)], Itrunc(t));
    Frees(slots, Slot(x, 1, true, true, d1), disk[x := d1], t);
    Snoc(z, [] + [IputStart(t)] + [Itrunc(t)], Ifree(t));
    assert disk[x := d1][x := d2] == disk[x := d2];
    Ends(slots, Slot(x, 1, true, true, d2), disk[x := d2], t);
    Snoc(z, [] + [IputStart(t)] + [Itrunc(t)] + [Ifree(t)], IputEnd(t));
  }

  lemma {:induction false} Join(s: State, es: seq<Event>, fs: seq<Event>)
    requires Feasible(s, es) && Feasible(After(s, es), fs)
    ensures Feasible(s, es + fs) && After(s, es + fs) == After(After(s, es), fs)
    decreases |fs|
  {
    hide Enabled, Next;
    var all := es + fs;
    if fs == [] {
      assert all == es;
    } else {
      Join(s, es, fs[..|fs| - 1]);
      assert all[..|all| - 1] == es + fs[..|fs| - 1];
    }
  }
}
