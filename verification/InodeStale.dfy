/**
 * A number that is not in use, given to iget.  The code does not look: ".." of a removed directory may hold
 * the number of an inode that has been freed, or is being freed, or is being allocated again.
 */
module InodeStale {
  import opened Common
  import opened InodeCache
  import opened InodeRuns

  /** A pointer whose inode is gone: the next ilock through it panics, or finds a stranger. */
  ghost predicate Stray(s: State, t: nat) {
    Live(s, t) && s.ptrs[t].phase in {Idle, Fresh, Filling} && s.disk[Inum(s, t)].typ == 0
  }

  ghost predicate NoGets(es: seq<Event>) { forall k :: 0 <= k < |es| ==> !es[k].Iget? }

  lemma {:induction false} NoGetsTidy(s: State, es: seq<Event>)
    requires Feasible(s, es) && NoGets(es)
    ensures Tidy(s, es)
    decreases |es|
  {
    if es != [] {
      NoGetsTidy(s, es[..|es| - 1]);
    }
  }

  /** From `s`, and without any further iget, `es` ends with a stray pointer. */
  ghost predicate EndsStray(s: State, es: seq<Event>, u: nat) {
    Feasible(s, es) && NoGets(es) && Stray(After(s, es), u)
  }

  lemma Extend(s: State, e: Event, es: seq<Event>, u: nat)
    requires Enabled(s, e) && !e.Iget? && EndsStray(Next(s, e), es, u)
    ensures EndsStray(s, [e] + es, u)
  {
    Cons(s, e, es);
  }

  lemma {:induction false} Cons(s: State, e: Event, es: seq<Event>)
    requires Enabled(s, e) && Feasible(Next(s, e), es)
    ensures Feasible(s, [e] + es) && After(s, [e] + es) == After(Next(s, e), es)
    decreases |es|
  {
    hide Enabled, Next;
    var all := [e] + es;
    if es == [] {
      assert all == [e] && all[..0] == [];
    } else {
      Cons(s, e, es[..|es| - 1]);
      assert all[..|all| - 1] == [e] + es[..|es| - 1];
    }
  }

  lemma Already(s: State, u: nat)
    requires Stray(s, u)
    ensures EndsStray(s, [], u)
  {
  }

  /** An iput that was under way goes on and frees the inode under the new pointer. */
  lemma ReleasedUnder(s: State, t: nat, u: nat) returns (es: seq<Event>)
    requires Live(s, t) && Live(s, u) && t != u && s.ptrs[t] == Ptr(s.ptrs[u].slot, Idle)
    requires s.ptrs[u].phase == Trunc || s.ptrs[u].phase == Emptied
    ensures EndsStray(s, es, t)
    decreases s.ptrs[u].phase == Trunc
  {
    hide Feasible, After;
    if s.ptrs[u].phase == Emptied {
      var s1 := Next(s, Ifree(u));
      Already(s1, t);
      Extend(s, Ifree(u), [], t);
      es := [Ifree(u)] + [];
    } else {
      var s1 := Next(s, Itrunc(u));
      var rest := ReleasedUnder(s1, t, u);
      Extend(s, Itrunc(u), rest, t);
      es := [Itrunc(u)] + rest;
    }
  }

  /** Pointer `t` alone refers to the number that process `a` is allocating. */
  ghost predicate Intruded(s: State, t: nat, a: nat) {
    && Live(s, t) && s.ptrs[t].phase == Idle && a in s.allocs && a !in s.ptrs && s.allocs[a] == Inum(s, t)
    && s.slots[s.ptrs[t].slot].ref == 1 && !s.slots[s.ptrs[t].slot].busy && !s.slots[s.ptrs[t].slot].valid
    && s.disk[Inum(s, t)].typ != 0 && s.disk[Inum(s, t)].nlink == 0
    && forall j :: 0 <= j < |s.slots| && s.slots[j].ref > 0 && s.slots[j].inum == Inum(s, t) ==> j == s.ptrs[t].slot
  }

  /** An ialloc that was under way gets a number that the new pointer has given up and freed. */
  lemma AllocatedUnder(s: State, t: nat, a: nat) returns (es: seq<Event>)
    requires Intruded(s, t, a)
    ensures EndsStray(s, es, a)
  {
    hide Feasible, After;
    var i, x := s.ptrs[t].slot, Inum(s, t);
    var d := s.disk[x];
    var s1 := Next(s, Ilock(t));
    var s2 := Next(s1, Fill(t));
    var s3 := Next(s2, Iunlock(t));
    assert s3.slots[i] == Slot(x, 1, false, true, d) && s3.ptrs[t] == Ptr(i, Idle) && s3.disk == s.disk;
    var rest := FreedUnder(s3, t, a);
    Extend(s2, Iunlock(t), rest, a);
    Extend(s1, Fill(t), [Iunlock(t)] + rest, a);
    Extend(s, Ilock(t), [Fill(t)] + ([Iunlock(t)] + rest), a);
    es := [Ilock(t)] + ([Fill(t)] + ([Iunlock(t)] + rest));
  }

  lemma FreedUnder(s: State, t: nat, a: nat) returns (es: seq<Event>)
    requires Live(s, t) && s.ptrs[t].phase == Idle && a in s.allocs && a !in s.ptrs && s.allocs[a] == Inum(s, t)
    requires LastDrop(s.slots[s.ptrs[t].slot])
    requires forall j :: 0 <= j < |s.slots| && s.slots[j].ref > 0 && s.slots[j].inum == Inum(s, t) ==>
               j == s.ptrs[t].slot
    ensures EndsStray(s, es, a)
  {
    hide Feasible, After;
    var i, x := s.ptrs[t].slot, Inum(s, t);
    var s1 := Next(s, IputStart(t));
    var s2 := Next(s1, Itrunc(t));
    var s3 := Next(s2, Ifree(t));
    var s4 := Next(s3, IputEnd(t));
    assert s4.slots[i].ref == 0 && s4.disk[x].typ == 0 && a in s4.allocs && s4.allocs[a] == x;
    assert Picks(s4.slots, x, i);
    var s5 := Next(s4, IgetNew(a, i));
    Already(s5, a);
    Extend(s4, IgetNew(a, i), [], a);
    var r4 := [IgetNew(a, i)] + [];
    Extend(s3, IputEnd(t), r4, a);
    var r3 := [IputEnd(t)] + r4;
    Extend(s2, Ifree(t), r3, a);
    var r2 := [Ifree(t)] + r3;
    Extend(s1, Itrunc(t), r2, a);
    var r1 := [Itrunc(t)] + r2;
    Extend(s, IputStart(t), r1, a);
    es := [IputStart(t)] + r1;
  }

  /** Every bad iget can end badly. */
  lemma StrayAfter(s: State, t: nat, x: nat, i: nat) returns (es: seq<Event>, u: nat)
    requires Safe(s) && Enabled(s, Iget(t, x, i)) && !Gettable(s, x)
    ensures EndsStray(Next(s, Iget(t, x, i)), es, u)
  {
    hide EndsStray;
    var s' := Next(s, Iget(t, x, i));
    if s.disk[x].typ == 0 {
      Already(s', t);
      es, u := [], t;
    } else if v :| Live(s, v) && Inum(s, v) == x && (s.ptrs[v].phase == Trunc || s.ptrs[v].phase == Emptied) {
      Referenced(s, v);
      es := ReleasedUnder(s', t, v);
      u := t;
    } else {
      var a :| a in s.allocs && s.allocs[a] == x;
      es := AllocatedAfter(s, t, x, i, a);
      u := a;
    }
  }

  lemma AllocatedAfter(s: State, t: nat, x: nat, i: nat, a: nat) returns (es: seq<Event>)
    requires Safe(s) && Enabled(s, Iget(t, x, i)) && i < |s.slots| && a in s.allocs && s.allocs[a] == x
    ensures EndsStray(Next(s, Iget(t, x, i)), es, a)
  {
    hide EndsStray, Intruded, Safe, Enabled, Next;
    var s' := Next(s, Iget(t, x, i));
    if s.slots[i].ref == 0 {
      IntrudesEmpty(s, t, x, i, a);
      es := AllocatedUnder(s', t, a);
    } else {
      var v := IntrudesShared(s, t, x, i, a);
      var rest := AllocatedUnder(Next(s', IputEnd(v)), t, a);
      Extend(s', IputEnd(v), rest, a);
      es := [IputEnd(v)] + rest;
    }
  }

  lemma IntrudesEmpty(s: State, t: nat, x: nat, i: nat, a: nat)
    requires Safe(s) && Enabled(s, Iget(t, x, i)) && a in s.allocs && s.allocs[a] == x && s.slots[i].ref == 0
    ensures Intruded(Next(s, Iget(t, x, i)), t, a)
  {
    hide Counted, OneOwner, BusyOwned, Synced, PtrsOk, UsersOk, FreeUnlinked;
    assert AllocOk(s, a);
  }

  /** The slot is that of an iput that has freed the number and not ended yet; it ends. */
  lemma IntrudesShared(s: State, t: nat, x: nat, i: nat, a: nat) returns (v: nat)
    requires Safe(s) && Enabled(s, Iget(t, x, i)) && a in s.allocs && s.allocs[a] == x && s.slots[i].ref > 0
    ensures Enabled(Next(s, Iget(t, x, i)), IputEnd(v))
    ensures Intruded(Next(Next(s, Iget(t, x, i)), IputEnd(v)), t, a)
  {
    hide Counted, BusyOwned, Synced, PtrsOk, UsersOk, FreeUnlinked;
    assert AllocOk(s, a);
    v := SomePtr(s, i);
    assert Live(s, v) && Inum(s, v) == x;
    OnePtr(s, i, v);
  }

  /** A slot whose pointers are all at the end of their iput has one of them. */
  lemma OnePtr(s: State, i: nat, v: nat)
    requires Counted(s) && OneOwner(s) && i < |s.slots| && v in s.ptrs && s.ptrs[v].slot == i
    requires forall t :: t in s.ptrs && s.ptrs[t].slot == i ==> s.ptrs[t].phase == Freed
    ensures s.slots[i].ref == 1
  {
    assert Ptrs(s.ptrs, i) == {v};
  }

  /** The exact condition, in terms of what can happen: after an iget no run without another bad iget ever
      has a stray pointer, if and only if the number is allocated and neither an iput nor an ialloc of it is
      under way. */
  lemma GetIsSafeIff(s: State, t: nat, x: nat, i: nat)
    requires Safe(s) && Enabled(s, Iget(t, x, i))
    ensures Gettable(s, x) <==>
            forall es, u :: Feasible(Next(s, Iget(t, x, i)), es) && Tidy(Next(s, Iget(t, x, i)), es) ==>
              !Stray(After(Next(s, Iget(t, x, i)), es), u)
  {
    hide Enabled, Next, Stray, Safe;
    var s' := Next(s, Iget(t, x, i));
    if Gettable(s, x) {
      SafeStep(s, Iget(t, x, i));
      forall es, u | Feasible(s', es) && Tidy(s', es) ensures !Stray(After(s', es), u) {
        RunSafe(s', es);
        SafeIsNotStray(After(s', es), u);
      }
    } else {
      var es, u := StrayAfter(s, t, x, i);
      NoGetsTidy(s', es);
      assert Feasible(s', es) && Tidy(s', es) && Stray(After(s', es), u);
    }
  }

  lemma SafeIsNotStray(s: State, u: nat)
    requires Safe(s)
    ensures !Stray(s, u)
  {
    assert u in s.ptrs ==> UserOk(s, u);
  }

  // ---------------------------------------------------------------------------------------------
  // Two concrete runs

  /** The failing run: an inode is opened, unlinked and closed, and so freed; then iget is given its number,
      as a removed directory's ".." gives it, and ilock panics "no type". */
  lemma IlockPanics(s: State, x: nat)
    requires Boot(s) && |s.slots| >= 1 && x < |s.disk| && s.disk[x].typ != 0
    ensures var es := UnlinkRun(0, x, s.disk[x].(nlink := 0)) + ReleaseRun(0) + [Iget(1, x, 0)] + [Ilock(1)];
            Feasible(s, es) && NoType(After(s, es), 1)
  {
    hide After, Feasible, UnlinkRun, ReleaseRun, Enabled, Next;
    var d := s.disk[x].(nlink := 0);
    Unlinks(s, 0, x);
    Releases(s.slots, x, d, s.disk[x := d], 0);
    Join(s, UnlinkRun(0, x, d), ReleaseRun(0));
    var es := UnlinkRun(0, x, d) + ReleaseRun(0);
    var z := After(s, es);
    Opens(z, 1, x);
    Snoc(s, es, Iget(1, x, 0));
    Locks(z.slots, Slot(x, 1, false, false, z.slots[0].copy), z.disk, 1);
    Snoc(s, es + [Iget(1, x, 0)], Ilock(1));
  }

  /** And the other: iget finds the slot while iput is inside itrunc, and the inode is freed although another
      pointer refers to it. */
  lemma FreedUnderAPointer(s: State, x: nat)
    requires Boot(s) && |s.slots| >= 1 && x < |s.disk| && s.disk[x].typ != 0
    ensures var es := UnlinkRun(0, x, s.disk[x].(nlink := 0)) + [IputStart(0)] + [Iget(1, x, 0)] + [Itrunc(0)];
            && Feasible(s, es) && Enabled(After(s, es), Ifree(0))
            && Live(After(s, es), 1) && Inum(After(s, es), 1) == Inum(After(s, es), 0)
            && Stray(Next(After(s, es), Ifree(0)), 1)
  {
    hide After, Feasible, UnlinkRun, Enabled, Next;
    var d := s.disk[x].(nlink := 0);
    Unlinks(s, 0, x);
    var es := UnlinkRun(0, x, d);
    Starts(s.slots, HeldSlot(x, d), s.disk[x := d], 0);
    Snoc(s, es, IputStart(0));
    Intrudes(s.slots, Slot(x, 1, true, true, d), s.disk[x := d]);
    Snoc(s, es + [IputStart(0)], Iget(1, x, 0));
    Snoc(s, es + [IputStart(0)] + [Iget(1, x, 0)], Itrunc(0));
  }

  lemma Intrudes(slots: seq<Slot>, f: Slot, disk: seq<Dinode>)
    requires |slots| >= 1 && f.inum < |disk| && f.ref == 1
    ensures var z := One(slots, f, disk, 0, Trunc);
            && Enabled(z, Iget(1, f.inum, 0))
            && var z1 := Next(z, Iget(1, f.inum, 0));
            && Enabled(z1, Itrunc(0))
            && var z2 := Next(z1, Itrunc(0));
            && Enabled(z2, Ifree(0)) && Live(z2, 1) && Inum(z2, 1) == Inum(z2, 0) && Stray(Next(z2, Ifree(0)), 1)
  {
  }
}
