/**
 * The inode cache protocol of fs.c: iget, idup, ilock, iunlock, iput, ialloc and iupdate, interleaved
 * by any number of processes.  Every outstanding in-memory pointer has an identity of its own, so the
 * reference count can be compared with the pointers there really are.
 *
 * ialloc may reuse an inode number between iput's release of the disk inode and iput's own end.  And
 * iget takes any number: a removed directory's ".." can hold one that has been freed since.
 */
module InodeCache {
  import opened Common

  /** An inode on disk; type 0 is free.  `body` stands for the size and block addresses. */
  datatype Dinode = Dinode(typ: nat, nlink: nat, body: seq<nat>)

  datatype Slot = Slot(inum: nat, ref: nat, busy: bool, valid: bool, copy: Dinode)

  /** What is being done through a pointer.  Fresh: ialloc's result, not locked yet.  Filling: ilock has
      I_BUSY and must still read the disk.  Dirty: changed, owing an iupdate.  Trunc, Emptied, Freed:
      inside iput's release of an unlinked inode. */
  datatype Phase = Idle | Fresh | Filling | Locked | Dirty | Trunc | Emptied | Freed
  datatype Ptr = Ptr(slot: nat, phase: Phase)

  /** `allocs` are the processes inside ialloc that have claimed a number and not yet called iget. */
  datatype State = State(slots: seq<Slot>, disk: seq<Dinode>, ptrs: map<nat, Ptr>, allocs: map<nat, nat>)

  datatype Event =
    | Iget(t: nat, x: nat, i: nat)
    | Ialloc(t: nat, x: nat, typ: nat)
    | IgetNew(t: nat, i: nat)
    | Idup(t: nat, u: nat)
    | Ilock(t: nat)
    | Fill(t: nat)
    | Edit(t: nat, d: Dinode)
    | Iupdate(t: nat)
    | Iunlock(t: nat)
    | IputDrop(t: nat)
    | IputStart(t: nat)
    | Itrunc(t: nat)
    | Ifree(t: nat)
    | IputEnd(t: nat)

  predicate Putting(p: Phase) { p.Trunc? || p.Emptied? || p.Freed? }
  predicate Owning(p: Phase) { p.Filling? || p.Locked? || p.Dirty? || Putting(p) }

  predicate Live(s: State, t: nat) {
    t in s.ptrs && s.ptrs[t].slot < |s.slots| && s.slots[s.ptrs[t].slot].inum < |s.disk|
  }

  function Inum(s: State, t: nat): nat
    requires Live(s, t)
  {
    s.slots[s.ptrs[t].slot].inum
  }

  /** iget's choice for number `x`: the referenced slot of `x` if there is one, else an unreferenced slot. */
  ghost predicate Picks(slots: seq<Slot>, x: nat, i: nat) {
    && i < |slots|
    && if slots[i].ref > 0 then slots[i].inum == x
       else forall j :: 0 <= j < |slots| ==> !(slots[j].ref > 0 && slots[j].inum == x)
  }

  function Gotten(f: Slot, x: nat): Slot {
    if f.ref > 0 then f.(ref := f.ref + 1) else Slot(x, 1, false, false, f.copy)
  }

  /** ilock is about to panic "no type": it has read a free inode from the disk. */
  predicate NoType(s: State, t: nat) { Live(s, t) && s.ptrs[t].phase == Filling && s.disk[Inum(s, t)].typ == 0 }

  /** A name for `x` exists: a directory entry counted by its link count, or a pointer in hand. */
  ghost predicate Reachable(s: State, x: nat) {
    x < |s.disk| && (s.disk[x].nlink > 0 || exists u :: Live(s, u) && !Putting(s.ptrs[u].phase) && Inum(s, u) == x)
  }

  predicate LastDrop(f: Slot) { f.ref == 1 && f.valid && f.copy.nlink == 0 }

  ghost predicate Enabled(s: State, e: Event) {
    match e
    case Iget(t, x, i) => t !in s.ptrs && t !in s.allocs && x < |s.disk| && Picks(s.slots, x, i)
    case Ialloc(t, x, typ) =>
      t !in s.ptrs && t !in s.allocs && 1 <= x < |s.disk| && s.disk[x].typ == 0 && typ != 0
    case IgetNew(t, i) => t !in s.ptrs && t in s.allocs && Picks(s.slots, s.allocs[t], i)
    case Idup(t, u) => t !in s.ptrs && t !in s.allocs && Live(s, u) && !Putting(s.ptrs[u].phase)
    case Ilock(t) => Live(s, t) && s.ptrs[t].phase in {Idle, Fresh} && !s.slots[s.ptrs[t].slot].busy
    case Fill(t) => Live(s, t) && s.ptrs[t].phase == Filling && s.disk[Inum(s, t)].typ != 0    // else NoType
    case Edit(t, d) => Live(s, t) && s.ptrs[t].phase in {Locked, Dirty} && d.typ != 0
    case Iupdate(t) => Live(s, t) && s.ptrs[t].phase in {Locked, Dirty}
    case Iunlock(t) => Live(s, t) && s.ptrs[t].phase == Locked
    case IputDrop(t) => Live(s, t) && s.ptrs[t].phase == Idle && !LastDrop(s.slots[s.ptrs[t].slot])
    case IputStart(t) => Live(s, t) && s.ptrs[t].phase == Idle && LastDrop(s.slots[s.ptrs[t].slot])
    case Itrunc(t) => Live(s, t) && s.ptrs[t].phase == Trunc
    case Ifree(t) => Live(s, t) && s.ptrs[t].phase == Emptied
    case IputEnd(t) => Live(s, t) && s.ptrs[t].phase == Freed
  }

  function SetPhase(s: State, t: nat, p: Phase): map<nat, Ptr>
    requires t in s.ptrs
  {
    s.ptrs[t := s.ptrs[t].(phase := p)]
  }

  /** The state with pointer `t`'s slot replaced by `f` and its phase by `p`. */
  function With(s: State, t: nat, f: Slot, p: Phase): State
    requires Live(s, t)
  {
    s.(slots := s.slots[s.ptrs[t].slot := f], ptrs := SetPhase(s, t, p))
  }

  function Next(s: State, e: Event): State
    requires Enabled(s, e)
  {
    match e
    case Iget(t, x, i) =>
      s.(slots := s.slots[i := Gotten(s.slots[i], x)], ptrs := s.ptrs[t := Ptr(i, Idle)])
    case Ialloc(t, x, typ) => s.(disk := s.disk[x := Dinode(typ, 0, [])], allocs := s.allocs[t := x])
    case IgetNew(t, i) =>
      s.(slots := s.slots[i := Gotten(s.slots[i], s.allocs[t])], ptrs := s.ptrs[t := Ptr(i, Fresh)],
         allocs := s.allocs - {t})
    case Idup(t, u) =>
      var i := s.ptrs[u].slot;
      s.(slots := s.slots[i := s.slots[i].(ref := s.slots[i].ref + 1)], ptrs := s.ptrs[t := Ptr(i, Idle)])
    case Ilock(t) =>
      var f := s.slots[s.ptrs[t].slot];
      With(s, t, f.(busy := true), if f.valid then Locked else Filling)
    case Fill(t) =>
      var f := s.slots[s.ptrs[t].slot];
      With(s, t, f.(valid := true, copy := s.disk[f.inum]), Locked)
    case Edit(t, d) => With(s, t, s.slots[s.ptrs[t].slot].(copy := d), Dirty)
    case Iupdate(t) =>
      s.(disk := s.disk[Inum(s, t) := s.slots[s.ptrs[t].slot].copy], ptrs := SetPhase(s, t, Locked))
    case Iunlock(t) => With(s, t, s.slots[s.ptrs[t].slot].(busy := false), Idle)
    case IputDrop(t) =>
      var i := s.ptrs[t].slot;
      s.(slots := s.slots[i := s.slots[i].(ref := Less(s.slots[i].ref))], ptrs := s.ptrs - {t})
    case IputStart(t) => With(s, t, s.slots[s.ptrs[t].slot].(busy := true), Trunc)
    case Itrunc(t) =>
      var f := s.slots[s.ptrs[t].slot];
      var d := f.copy.(body := []);
      With(s, t, f.(copy := d), Emptied).(disk := s.disk[f.inum := d])
    case Ifree(t) =>
      var f := s.slots[s.ptrs[t].slot];
      var d := f.copy.(typ := 0);
      With(s, t, f.(copy := d), Freed).(disk := s.disk[f.inum := d])
    case IputEnd(t) =>
      var i := s.ptrs[t].slot;
      s.(slots := s.slots[i := s.slots[i].(ref := Less(s.slots[i].ref), busy := false, valid := false)],
         ptrs := s.ptrs - {t})
  }

  ghost predicate Feasible(s: State, es: seq<Event>)
    decreases |es|, 0
  {
    es == [] || (Feasible(s, es[..|es| - 1]) && Enabled(After(s, es[..|es| - 1]), es[|es| - 1]))
  }

  ghost function After(s: State, es: seq<Event>): State
    requires Feasible(s, es)
    decreases |es|, 1
  {
    if es == [] then s else Next(After(s, es[..|es| - 1]), es[|es| - 1])
  }

  /** After iinit: nothing is referenced, and a free inode has no links. */
  ghost predicate Boot(s: State) {
    && s.ptrs == map[] && s.allocs == map[]
    && (forall i :: 0 <= i < |s.slots| ==> s.slots[i].ref == 0 && !s.slots[i].busy)
    && (forall x :: 0 <= x < |s.disk| && s.disk[x].typ == 0 ==> s.disk[x].nlink == 0)
  }

  /** An allocated inode without links that nobody refers to. */
  ghost predicate Orphan(s: State, x: nat) {
    && x < |s.disk| && s.disk[x].typ != 0 && s.disk[x].nlink == 0
    && (forall t :: Live(s, t) ==> Inum(s, t) != x)
    && (forall a :: a in s.allocs ==> s.allocs[a] != x)
  }

  // ---------------------------------------------------------------------------------------------
  // The invariant, part by part

  /** The pointers to slot `i`. */
  ghost function Ptrs(ptrs: map<nat, Ptr>, i: nat): set<nat> { set t | t in ptrs && ptrs[t].slot == i }

  ghost predicate Counted(s: State) {
    forall i :: 0 <= i < |s.slots| ==> s.slots[i].ref == |Ptrs(s.ptrs, i)|
  }

  ghost predicate Alive(s: State) { forall t :: t in s.ptrs ==> Live(s, t) }

  ghost predicate OneSlot(s: State) {
    forall i, j :: 0 <= i < j < |s.slots| && s.slots[i].ref > 0 && s.slots[j].ref > 0 ==>
      s.slots[i].inum != s.slots[j].inum
  }

  ghost predicate OneOwner(s: State) {
    forall t, u :: t in s.ptrs && u in s.ptrs && t != u && s.ptrs[t].slot == s.ptrs[u].slot ==>
      !(Owning(s.ptrs[t].phase) && Owning(s.ptrs[u].phase))
  }

  ghost predicate HasOwner(s: State, i: nat) {
    exists t :: t in s.ptrs && s.ptrs[t].slot == i && Owning(s.ptrs[t].phase)
  }

  ghost predicate BusyOwned(s: State) {
    forall i :: 0 <= i < |s.slots| ==> (s.slots[i].busy <==> HasOwner(s, i))
  }

  /** A pointer's phase agrees with its slot and with the disk. */
  ghost predicate PtrOk(s: State, t: nat)
    requires Live(s, t)
  {
    var p, f := s.ptrs[t].phase, s.slots[s.ptrs[t].slot];
    && (p == Filling ==> !f.valid)
    && (p in {Locked, Dirty, Trunc, Emptied, Freed} ==> f.valid)
    && (p in {Locked, Dirty, Trunc, Emptied} ==> f.copy.typ != 0 && s.disk[f.inum].typ != 0)
    && (p in {Trunc, Emptied, Freed} ==> f.copy.nlink == 0)
  }

  ghost predicate PtrsOk(s: State) { forall t :: t in s.ptrs ==> Live(s, t) && PtrOk(s, t) }

  /** Through `t` the slot's copy is ahead of the disk, or behind it. */
  ghost predicate Apart(s: State, i: nat) {
    exists t :: t in s.ptrs && s.ptrs[t].slot == i && (s.ptrs[t].phase == Dirty || s.ptrs[t].phase == Freed)
  }

  ghost predicate InSync(s: State, i: nat)
    requires i < |s.slots|
  {
    var f := s.slots[i];
    f.ref > 0 && f.valid && !Apart(s, i) ==> f.inum < |s.disk| && f.copy == s.disk[f.inum] && f.copy.typ != 0
  }

  ghost predicate Synced(s: State) { forall i :: 0 <= i < |s.slots| ==> InSync(s, i) }

  ghost predicate FreeUnlinked(s: State) {
    forall x :: 0 <= x < |s.disk| && s.disk[x].typ == 0 ==> s.disk[x].nlink == 0
  }

  ghost predicate AllocsIn(s: State) {
    forall a :: a in s.allocs ==> a !in s.ptrs && s.allocs[a] < |s.disk|
  }

  /** What every run keeps, whatever numbers iget is given. */
  ghost predicate Sound(s: State) {
    && Counted(s) && Alive(s) && OneSlot(s) && OneOwner(s) && BusyOwned(s)
    && PtrsOk(s) && Synced(s) && FreeUnlinked(s) && AllocsIn(s)
  }

  /** A pointer that is not at the end of its iput has an allocated inode, and an iput that releases one
      has the only pointer. */
  ghost predicate UserOk(s: State, t: nat)
    requires Live(s, t)
  {
    && (s.ptrs[t].phase != Freed ==> s.disk[Inum(s, t)].typ != 0)
    && (s.ptrs[t].phase in {Trunc, Emptied} ==> s.slots[s.ptrs[t].slot].ref == 1)
  }

  ghost predicate UsersOk(s: State) { forall t :: t in s.ptrs ==> Live(s, t) && UserOk(s, t) }

  /** A number inside ialloc is used by nobody but an iput that has already released it. */
  ghost predicate AllocOk(s: State, a: nat)
    requires a in s.allocs
  {
    var x := s.allocs[a];
    && x < |s.disk| && s.disk[x].typ != 0 && s.disk[x].nlink == 0
    && (forall t :: t in s.ptrs && Live(s, t) && Inum(s, t) == x ==> s.ptrs[t].phase == Freed)
    && (forall b :: b in s.allocs && b != a ==> s.allocs[b] != x)
  }

  ghost predicate AllocsOk(s: State) { forall a :: a in s.allocs ==> AllocOk(s, a) }

  /** No pointer outlives its inode, and nobody is in the way of an iput or an ialloc. */
  ghost predicate Safe(s: State) { Sound(s) && UsersOk(s) && AllocsOk(s) }

  /** Iput of `x` is under way. */
  ghost predicate Releasing(s: State, x: nat) {
    exists t :: Live(s, t) && Inum(s, t) == x && (s.ptrs[t].phase == Trunc || s.ptrs[t].phase == Emptied)
  }

  /** Number `x` is allocated, and neither an iput nor an ialloc of it is under way. */
  ghost predicate Gettable(s: State, x: nat) {
    x < |s.disk| && s.disk[x].typ != 0 && !Releasing(s, x) && forall a :: a in s.allocs ==> s.allocs[a] != x
  }

  ghost predicate Proper(s: State, e: Event) { e.Iget? ==> Gettable(s, e.x) }

  // ---------------------------------------------------------------------------------------------
  // Counting pointers

  lemma AddPtr(ptrs: map<nat, Ptr>, t: nat, p: Ptr, i: nat)
    requires t !in ptrs
    ensures |Ptrs(ptrs[t := p], i)| == |Ptrs(ptrs, i)| + if p.slot == i then 1 else 0
  {
    assert Ptrs(ptrs[t := p], i) == Ptrs(ptrs, i) + if p.slot == i then {t} else {};
  }

  lemma DropPtr(ptrs: map<nat, Ptr>, t: nat, i: nat)
    requires t in ptrs
    ensures |Ptrs(ptrs, i)| == |Ptrs(ptrs - {t}, i)| + if ptrs[t].slot == i then 1 else 0
  {
    assert Ptrs(ptrs, i) == Ptrs(ptrs - {t}, i) + if ptrs[t].slot == i then {t} else {};
  }

  lemma SamePtrs(ptrs: map<nat, Ptr>, t: nat, p: Phase, i: nat)
    requires t in ptrs
    ensures |Ptrs(ptrs[t := ptrs[t].(phase := p)], i)| == |Ptrs(ptrs, i)|
  {
    assert Ptrs(ptrs[t := ptrs[t].(phase := p)], i) == Ptrs(ptrs, i);
  }

  /** A slot with a pointer is referenced; a slot referenced once has one pointer. */
  lemma Referenced(s: State, t: nat)
    requires Counted(s) && Live(s, t)
    ensures s.slots[s.ptrs[t].slot].ref > 0
    ensures s.slots[s.ptrs[t].slot].ref == 1 ==>
              forall u :: u in s.ptrs && s.ptrs[u].slot == s.ptrs[t].slot ==> u == t
  {
    var all := Ptrs(s.ptrs, s.ptrs[t].slot);
    assert t in all;
    if |all| == 1 {
      forall u | u in s.ptrs && s.ptrs[u].slot == s.ptrs[t].slot ensures u == t {
        assert u in all;
        assert |all - {t}| == 0;
      }
    }
  }

  lemma Unreferenced(s: State, i: nat)
    requires Counted(s) && i < |s.slots| && s.slots[i].ref == 0
    ensures forall t :: t in s.ptrs ==> s.ptrs[t].slot != i
  {
    assert forall t :: t in s.ptrs && s.ptrs[t].slot == i ==> t in Ptrs(s.ptrs, i);
  }

  /** A referenced slot has a pointer. */
  lemma SomePtr(s: State, i: nat) returns (t: nat)
    requires Counted(s) && i < |s.slots| && s.slots[i].ref > 0
    ensures t in s.ptrs && s.ptrs[t].slot == i
  {
    assert Ptrs(s.ptrs, i) != {};
    t :| t in Ptrs(s.ptrs, i);
  }

  lemma CountedStep(s: State, e: Event)
    requires Counted(s) && Enabled(s, e)
    ensures Counted(Next(s, e))
  {
    var s' := Next(s, e);
    forall i | 0 <= i < |s'.slots| ensures s'.slots[i].ref == |Ptrs(s'.ptrs, i)| {
      assert s.slots[i].ref == |Ptrs(s.ptrs, i)|;
      match e
      case Iget(t, x, k) => AddPtr(s.ptrs, t, Ptr(k, Idle), i);
      case IgetNew(t, k) => AddPtr(s.ptrs, t, Ptr(k, Fresh), i);
      case Idup(t, u) => AddPtr(s.ptrs, t, Ptr(s.ptrs[u].slot, Idle), i);
      case Ialloc(_, _, _) =>
      case IputDrop(t) =>
        DropPtr(s.ptrs, t, i);
      case IputEnd(t) =>
        DropPtr(s.ptrs, t, i);
      case _ => SamePtrs(s.ptrs, e.t, s'.ptrs[e.t].phase, i);
    }
  }

  // ---------------------------------------------------------------------------------------------
  // Each part is kept

  lemma AliveStep(s: State, e: Event)
    requires Counted(s) && Alive(s) && AllocsIn(s) && Enabled(s, e)
    ensures Alive(Next(s, e))
  {
    hide Counted;
    var s' := Next(s, e);
    if (e.Iget? || e.IgetNew?) && s.slots[e.i].ref == 0 {
      Unreferenced(s, e.i);
    }
    forall t | t in s'.ptrs ensures Live(s', t) {
      assert t in s.ptrs ==> Live(s, t);
    }
  }

  lemma OneSlotStep(s: State, e: Event)
    requires OneSlot(s) && Counted(s) && Enabled(s, e)
    ensures OneSlot(Next(s, e))
  {
    hide Counted;
    if e.Idup? {
      Referenced(s, e.u);
    }
  }

  lemma OneOwnerStep(s: State, e: Event)
    requires OneOwner(s) && BusyOwned(s) && Counted(s) && Enabled(s, e)
    ensures OneOwner(Next(s, e))
  {
    hide Counted;
    if e.Ilock? {
      assert !HasOwner(s, s.ptrs[e.t].slot);
    } else if e.IputStart? {
      Referenced(s, e.t);
    }
  }

  /** A step through one pointer leaves every pointer to another slot, and that slot, as they are. */
  lemma Elsewhere(s: State, e: Event, u: nat)
    requires Enabled(s, e) && !Getting(e) && e.t in s.ptrs && u in s.ptrs && s.ptrs[e.t].slot != s.ptrs[u].slot
    ensures var s' := Next(s, e); var i := s.ptrs[u].slot;
            && u in s'.ptrs && s'.ptrs[u] == s.ptrs[u]
            && |s'.slots| == |s.slots| && |s'.disk| == |s.disk|
            && (i < |s.slots| ==> s'.slots[i] == s.slots[i])
            && (forall t :: t in s'.ptrs && s'.ptrs[t].slot == i <==> t in s.ptrs && s.ptrs[t].slot == i)
            && (forall t :: t in s'.ptrs && s'.ptrs[t].slot == i ==> s'.ptrs[t] == s.ptrs[t])
            && Live(s, e.t) && forall x :: 0 <= x < |s.disk| && x != Inum(s, e.t) ==> s'.disk[x] == s.disk[x]
  {
  }

  predicate Getting(e: Event) { e.Iget? || e.IgetNew? || e.Idup? || e.Ialloc? }

  lemma BusyOwnedStep(s: State, e: Event)
    requires OneOwner(s) && BusyOwned(s) && Counted(s) && Alive(s) && Enabled(s, e)
    ensures BusyOwned(Next(s, e))
  {
    hide Counted, Enabled, Alive, OneOwner;
    forall i | 0 <= i < |Next(s, e).slots| ensures Next(s, e).slots[i].busy <==> HasOwner(Next(s, e), i) {
      if Getting(e) {
        BusyGet(s, e, i);
      } else {
        BusyUse(s, e, i);
      }
    }
  }

  lemma BusyGet(s: State, e: Event, i: nat)
    requires BusyOwned(s) && Counted(s) && Enabled(s, e) && Getting(e)
    ensures |Next(s, e).slots| == |s.slots|
    ensures i < |s.slots| ==> (Next(s, e).slots[i].busy <==> HasOwner(Next(s, e), i))
  {
    hide Counted;
    var s' := Next(s, e);
    if i < |s.slots| {
      if (e.Iget? || e.IgetNew?) && s.slots[e.i].ref == 0 {
        Unreferenced(s, e.i);
      }
      if HasOwner(s, i) {
        var t :| t in s.ptrs && s.ptrs[t].slot == i && Owning(s.ptrs[t].phase);
        assert s'.ptrs[t] == s.ptrs[t];
      }
    }
  }

  lemma BusyUse(s: State, e: Event, i: nat)
    requires OneOwner(s) && BusyOwned(s) && Enabled(s, e) && !Getting(e)
    ensures |Next(s, e).slots| == |s.slots|
    ensures i < |s.slots| ==> (Next(s, e).slots[i].busy <==> HasOwner(Next(s, e), i))
  {
    var s' := Next(s, e);
    if i < |s.slots| {
      assert s.slots[i].busy <==> HasOwner(s, i);
      if i != s.ptrs[e.t].slot {
        assert forall t :: t in s.ptrs && s.ptrs[t].slot == i ==> t in s'.ptrs && s'.ptrs[t] == s.ptrs[t];
        assert forall t :: t in s'.ptrs && s'.ptrs[t].slot == i ==> t in s.ptrs && s'.ptrs[t] == s.ptrs[t];
      } else if e.t in s'.ptrs && Owning(s'.ptrs[e.t].phase) {
        assert s'.ptrs[e.t].slot == i;
        assert Owning(s.ptrs[e.t].phase) ==> HasOwner(s, i);
      } else if e.IputDrop? {
        if t :| t in s.ptrs && s.ptrs[t].slot == i && Owning(s.ptrs[t].phase) {
          assert s'.ptrs[t] == s.ptrs[t];
        }
      }
    }
  }

  lemma FreeUnlinkedStep(s: State, e: Event)
    requires FreeUnlinked(s) && PtrsOk(s) && Enabled(s, e)
    ensures FreeUnlinked(Next(s, e))
  {
    assert e.Iupdate? || e.Itrunc? || e.Ifree? ==> PtrOk(s, e.t);
  }

  lemma PtrsOkStep(s: State, e: Event)
    requires Sound(s) && Enabled(s, e)
    ensures PtrsOk(Next(s, e))
  {
    hide Counted;
    AliveStep(s, e);
    var s' := Next(s, e);
    forall t | t in s'.ptrs ensures PtrOk(s', t) {
      if t in s.ptrs {
        if Getting(e) { PtrStepGet(s, e, t); } else { PtrStepUse(s, e, t); }
      }
    }
  }

  lemma PtrStepGet(s: State, e: Event, t: nat)
    requires Sound(s) && Enabled(s, e) && t in s.ptrs && t in Next(s, e).ptrs && Live(Next(s, e), t)
    requires Getting(e)
    ensures PtrOk(Next(s, e), t)
  {
    hide Counted, OneOwner, BusyOwned, Synced;
    assert PtrOk(s, t);
    Referenced(s, t);
  }

  lemma PtrStepUse(s: State, e: Event, t: nat)
    requires Sound(s) && Enabled(s, e) && t in s.ptrs && t in Next(s, e).ptrs && Live(Next(s, e), t)
    requires !Getting(e)
    ensures PtrOk(Next(s, e), t)
  {
    hide Counted, BusyOwned, Next, Enabled, Synced, OneOwner;
    assert PtrOk(s, t);
    UsesPtr(s, e);
    if s.ptrs[e.t].slot != s.ptrs[t].slot {
      Referenced(s, t);
      Referenced(s, e.t);
      Elsewhere(s, e, t);
    } else if e.t == t {
      PtrStepOwn(s, e);
    } else {
      PtrStepShared(s, e, t);
    }
  }

  lemma UsesPtr(s: State, e: Event)
    requires Enabled(s, e) && !Getting(e)
    ensures Live(s, e.t)
  {
  }

  lemma PtrStepOwn(s: State, e: Event)
    requires Sound(s) && Enabled(s, e) && e.t in s.ptrs && e.t in Next(s, e).ptrs && Live(Next(s, e), e.t)
    requires !Getting(e)
    ensures PtrOk(Next(s, e), e.t)
  {
    hide Counted, BusyOwned, OneOwner, OneSlot;
    assert PtrOk(s, e.t) && InSync(s, s.ptrs[e.t].slot);
    Referenced(s, e.t);
    if e.Ilock? || e.IputStart? {
      NotApart(s, e.t);
    }
  }

  lemma PtrStepShared(s: State, e: Event, t: nat)
    requires Sound(s) && Enabled(s, e) && t in s.ptrs && t in Next(s, e).ptrs && Live(Next(s, e), t)
    requires !Getting(e) && t != e.t && s.ptrs[e.t].slot == s.ptrs[t].slot
    ensures PtrOk(Next(s, e), t)
  {
    hide Counted, OneSlot, Synced;
    assert PtrOk(s, t) && PtrOk(s, e.t);
    Referenced(s, t);
    if e.Ilock? { Unowned(s, s.ptrs[t].slot); }
  }

  /** If nobody else owns the slot, an idle pointer sees the disk's data. */
  lemma NotApart(s: State, t: nat)
    requires Sound(s) && Live(s, t) && !Owning(s.ptrs[t].phase)
    requires !s.slots[s.ptrs[t].slot].busy || s.slots[s.ptrs[t].slot].ref == 1
    ensures !Apart(s, s.ptrs[t].slot)
  {
    Referenced(s, t);
    assert s.slots[s.ptrs[t].slot].busy <==> HasOwner(s, s.ptrs[t].slot);
  }

  lemma SyncedStep(s: State, e: Event)
    requires Sound(s) && Enabled(s, e)
    ensures Synced(Next(s, e))
  {
    var s' := Next(s, e);
    forall i | 0 <= i < |s'.slots| ensures InSync(s', i) {
      assert InSync(s, i);
      if Getting(e) {
        InSyncGet(s, e, i);
      } else {
        InSyncUse(s, e, i);
      }
    }
  }

  lemma InSyncGet(s: State, e: Event, i: nat)
    requires Sound(s) && Enabled(s, e) && i < |s.slots|
    requires Getting(e)
    ensures InSync(Next(s, e), i)
  {
    hide Counted, OneOwner, BusyOwned;
    var s' := Next(s, e);
    assert InSync(s, i);
    if Apart(s, i) {
      var t :| t in s.ptrs && s.ptrs[t].slot == i && (s.ptrs[t].phase == Dirty || s.ptrs[t].phase == Freed);
      assert s'.ptrs[t] == s.ptrs[t];
    } else if e.Idup? {
      Referenced(s, e.u);
    }
  }

  lemma InSyncUse(s: State, e: Event, i: nat)
    requires Sound(s) && Enabled(s, e) && i < |s.slots|
    requires !Getting(e)
    ensures |Next(s, e).slots| == |s.slots| && InSync(Next(s, e), i)
  {
    hide Counted, BusyOwned, Next, Enabled, OneOwner;
    UsesPtr(s, e);
    assert InSync(s, i);
    if s.ptrs[e.t].slot == i {
      InSyncOwn(s, e);
    } else {
      SlotElsewhere(s, e, i);
      Referenced(s, e.t);
      SyncElsewhere(s, Next(s, e), i, s.ptrs[e.t].slot);
    }
  }

  /** A step through one pointer leaves every other slot and its pointers as they are. */
  lemma SlotElsewhere(s: State, e: Event, i: nat)
    requires Enabled(s, e) && !Getting(e) && Live(s, e.t) && i < |s.slots| && s.ptrs[e.t].slot != i
    ensures var s' := Next(s, e);
            && |s'.slots| == |s.slots| && |s'.disk| == |s.disk| && s'.slots[i] == s.slots[i]
            && (forall t :: t in s.ptrs && s.ptrs[t].slot == i ==> t in s'.ptrs && s'.ptrs[t] == s.ptrs[t])
            && forall x :: 0 <= x < |s.disk| && x != Inum(s, e.t) ==> s'.disk[x] == s.disk[x]
  {
  }

  lemma SyncElsewhere(s: State, s': State, i: nat, j: nat)
    requires OneSlot(s) && i < |s.slots| == |s'.slots| && |s'.disk| == |s.disk| && s'.slots[i] == s.slots[i]
    requires InSync(s, i)
    requires j < |s.slots| && j != i && s.slots[j].ref > 0
    requires forall t :: t in s.ptrs && s.ptrs[t].slot == i ==> t in s'.ptrs && s'.ptrs[t] == s.ptrs[t]
    requires forall x :: 0 <= x < |s.disk| && x != s.slots[j].inum ==> s'.disk[x] == s.disk[x]
    ensures InSync(s', i)
  {
    if Apart(s, i) {
      var t :| t in s.ptrs && s.ptrs[t].slot == i && (s.ptrs[t].phase == Dirty || s.ptrs[t].phase == Freed);
      assert s'.ptrs[t] == s.ptrs[t];
    }
  }

  lemma InSyncOwn(s: State, e: Event)
    requires Sound(s) && Enabled(s, e) && !Getting(e) && Live(s, e.t)
    ensures |Next(s, e).slots| == |s.slots| && InSync(Next(s, e), s.ptrs[e.t].slot)
  {
    hide Counted, BusyOwned, OneSlot;
    var s', i := Next(s, e), s.ptrs[e.t].slot;
    assert InSync(s, i) && PtrOk(s, e.t);
    Referenced(s, e.t);
    if Apart(s, i) {
      var t :| t in s.ptrs && s.ptrs[t].slot == i && (s.ptrs[t].phase == Dirty || s.ptrs[t].phase == Freed);
      if t != e.t {
        assert s'.ptrs[t] == s.ptrs[t];
      }
    }
    assert e.t in s'.ptrs && s'.ptrs[e.t].phase in {Dirty, Freed} ==> Apart(s', i);
  }

  lemma AllocsInStep(s: State, e: Event)
    requires AllocsIn(s) && Enabled(s, e)
    ensures AllocsIn(Next(s, e))
  {
  }

  /** Whatever numbers iget is given, every step keeps the counts, the owners and the copies right. */
  lemma SoundStep(s: State, e: Event)
    requires Sound(s) && Enabled(s, e)
    ensures Sound(Next(s, e))
  {
    hide Counted, OneOwner, BusyOwned, Synced, PtrsOk, OneSlot, FreeUnlinked, AllocsIn, Alive, Next, Enabled;
    CountedStep(s, e);
    AliveStep(s, e);
    OneSlotStep(s, e);
    OneOwnerStep(s, e);
    BusyOwnedStep(s, e);
    FreeUnlinkedStep(s, e);
    PtrsOkStep(s, e);
    SyncedStep(s, e);
    AllocsInStep(s, e);
  }

  // ---------------------------------------------------------------------------------------------
  // No pointer outlives its inode, as long as iget is given numbers in use

  lemma UsersStep(s: State, e: Event)
    requires Safe(s) && Enabled(s, e) && Proper(s, e) && Sound(Next(s, e))
    ensures UsersOk(Next(s, e))
  {
    hide Sound;
    var s' := Next(s, e);
    forall t | t in s'.ptrs ensures Live(s', t) && UserOk(s', t) {
      InSound(s', t);
      if t !in s.ptrs {
        NewUser(s, e);
      } else if Getting(e) {
        UserStepGet(s, e, t);
      } else {
        UserStepUse(s, e, t);
      }
    }
  }

  lemma InSound(s: State, t: nat)
    requires Sound(s) && t in s.ptrs
    ensures Live(s, t) && PtrOk(s, t)
  {
  }

  lemma NewUser(s: State, e: Event)
    requires Safe(s) && Enabled(s, e) && Proper(s, e) && e.t !in s.ptrs && e.t in Next(s, e).ptrs
    requires Live(Next(s, e), e.t)
    ensures UserOk(Next(s, e), e.t)
  {
    hide Counted, OneOwner, BusyOwned, Synced;
    match e
    case Iget(t, x, i) =>
    case IgetNew(t, i) => assert AllocOk(s, t);
    case Idup(t, u) => assert UserOk(s, u);
  }

  lemma UserStepGet(s: State, e: Event, t: nat)
    requires Safe(s) && Enabled(s, e) && Proper(s, e) && t in s.ptrs && Live(Next(s, e), t) && Getting(e)
    ensures UserOk(Next(s, e), t)
  {
    hide Counted, OneOwner, BusyOwned, Synced;
    assert UserOk(s, t);
    Referenced(s, t);
    match e
    case Iget(u, x, i) =>
      assert s.ptrs[t].slot == i && s.ptrs[t].phase in {Trunc, Emptied} ==> Releasing(s, x);
    case IgetNew(u, i) => assert AllocOk(s, u);
    case Idup(u, v) =>
    case Ialloc(u, x, typ) =>
  }

  lemma UserStepUse(s: State, e: Event, t: nat)
    requires Safe(s) && Enabled(s, e) && t in s.ptrs && t in Next(s, e).ptrs && Live(Next(s, e), t) && !Getting(e)
    ensures UserOk(Next(s, e), t)
  {
    hide Counted, OneOwner, BusyOwned, Synced, Next, Enabled;
    assert UserOk(s, t) && UserOk(s, e.t) && PtrOk(s, e.t) by { UsesPtr(s, e); }
    Referenced(s, t);
    Referenced(s, e.t);
    if s.ptrs[e.t].slot != s.ptrs[t].slot {
      Elsewhere(s, e, t);
    } else {
      UserStepSame(s, e, t);
    }
  }

  lemma UserStepSame(s: State, e: Event, t: nat)
    requires Safe(s) && Enabled(s, e) && t in s.ptrs && t in Next(s, e).ptrs && Live(Next(s, e), t) && !Getting(e)
    requires Live(s, e.t) && s.ptrs[e.t].slot == s.ptrs[t].slot
    ensures UserOk(Next(s, e), t)
  {
    hide Counted, BusyOwned, Synced, OneSlot, OneOwner;
    assert UserOk(s, t) && UserOk(s, e.t) && PtrOk(s, e.t);
    Referenced(s, t);
  }

  lemma AllocsStep(s: State, e: Event)
    requires Safe(s) && Enabled(s, e) && Proper(s, e)
    ensures AllocsOk(Next(s, e))
  {
    var s' := Next(s, e);
    forall a | a in s'.allocs ensures AllocOk(s', a) {
      if a in s.allocs {
        AllocStep(s, e, a);
      } else {
        NewAlloc(s, e);
      }
    }
  }

  lemma NewAlloc(s: State, e: Event)
    requires Safe(s) && Enabled(s, e) && e.Ialloc?
    ensures AllocOk(Next(s, e), e.t)
  {
    var s' := Next(s, e);
    forall t | t in s'.ptrs && Live(s', t) && Inum(s', t) == e.x ensures s'.ptrs[t].phase == Freed {
      assert UserOk(s, t);
    }
    forall b | b in s'.allocs && b != e.t ensures s'.allocs[b] != e.x {
      assert AllocOk(s, b);
    }
  }

  lemma AllocStep(s: State, e: Event, a: nat)
    requires Safe(s) && Enabled(s, e) && Proper(s, e) && a in s.allocs && a in Next(s, e).allocs
    ensures AllocOk(Next(s, e), a)
  {
    hide Counted, OneOwner, BusyOwned, Synced, OneSlot;
    var s' := Next(s, e);
    var x := s.allocs[a];
    assert AllocOk(s, a);
    AllocDisk(s, e, a);
    forall t | t in s'.ptrs && Live(s', t) && Inum(s', t) == x ensures s'.ptrs[t].phase == Freed {
      AllocStepPtr(s, e, a, t);
    }
  }

  lemma AllocDisk(s: State, e: Event, a: nat)
    requires Safe(s) && Enabled(s, e) && a in s.allocs
    ensures AllocOk(s, a) && |Next(s, e).disk| == |s.disk|
    ensures Next(s, e).disk[s.allocs[a]] == s.disk[s.allocs[a]]
  {
    hide Counted, OneOwner, BusyOwned, Synced, OneSlot;
    assert AllocOk(s, a);
  }

  lemma AllocStepPtr(s: State, e: Event, a: nat, t: nat)
    requires Safe(s) && Enabled(s, e) && Proper(s, e) && a in s.allocs && a in Next(s, e).allocs
    requires Live(Next(s, e), t) && Inum(Next(s, e), t) == s.allocs[a]
    ensures Next(s, e).ptrs[t].phase == Freed
  {
    hide Counted, OneOwner, BusyOwned, Synced, OneSlot;
    assert AllocOk(s, a);
    if Getting(e) {
      assert e.IgetNew? ==> AllocOk(s, e.t);
      if (e.Iget? || e.IgetNew?) && s.slots[e.i].ref == 0 {
        Unreferenced(s, e.i);
      }
    } else {
      assert Live(s, t);
    }
  }

  lemma SafeStep(s: State, e: Event)
    requires Safe(s) && Enabled(s, e) && Proper(s, e)
    ensures Safe(Next(s, e))
  {
    hide Sound, UsersOk, AllocsOk, Next, Enabled, Proper;
    SoundStep(s, e);
    UsersStep(s, e);
    AllocsStep(s, e);
  }

  /** The exact condition: a step keeps it if and only if it is no iget of a number that is free, or that an
      iput or an ialloc is at work on. */
  lemma SafeStepIff(s: State, e: Event)
    requires Safe(s) && Enabled(s, e)
    ensures Safe(Next(s, e)) <==> Proper(s, e)
  {
    hide Safe, Next, Enabled;
    if Proper(s, e) {
      SafeStep(s, e);
    } else {
      UnsafeGet(s, e.t, e.x, e.i);
    }
  }

  lemma UnsafeGet(s: State, t: nat, x: nat, i: nat)
    requires Safe(s) && Enabled(s, Iget(t, x, i)) && !Gettable(s, x)
    ensures !Safe(Next(s, Iget(t, x, i)))
  {
    var s' := Next(s, Iget(t, x, i));
    if s.disk[x].typ == 0 {
      assert !UserOk(s', t);
    } else if u :| Live(s, u) && Inum(s, u) == x && (s.ptrs[u].phase == Trunc || s.ptrs[u].phase == Emptied) {
      Referenced(s, u);
      assert UserOk(s, u);
      assert !UserOk(s', u);
    } else {
      var a :| a in s.allocs && s.allocs[a] == x;
      assert !AllocOk(s', a);
    }
  }

  // ---------------------------------------------------------------------------------------------
  // No allocated inode without links is forgotten

  ghost predicate Settled(s: State, i: nat) {
    && i < |s.slots| && s.slots[i].valid
    && forall t :: t in s.ptrs && s.ptrs[t].slot == i ==> s.ptrs[t].phase != Freed
  }

  /** Pointer `t` will see that its inode has no links when it is dropped. */
  ghost predicate Minds(s: State, t: nat, x: nat) {
    && Live(s, t) && Inum(s, t) == x
    && (s.ptrs[t].phase in {Fresh, Filling} || Settled(s, s.ptrs[t].slot))
  }

  ghost predicate Minded(s: State, x: nat) {
    (exists a :: a in s.allocs && s.allocs[a] == x) || exists t :: Minds(s, t, x)
  }

  /** The allocated inodes without links are minded, or were orphans in the state `boot`. */
  ghost predicate NoOrphans(s: State, boot: State) {
    forall x :: 0 <= x < |s.disk| && s.disk[x].typ != 0 && s.disk[x].nlink == 0 ==> Minded(s, x) || Orphan(boot, x)
  }

  lemma NoOrphansStep(s: State, e: Event, boot: State)
    requires Safe(s) && NoOrphans(s, boot) && Enabled(s, e) && Proper(s, e)
    ensures NoOrphans(Next(s, e), boot)
  {
    hide Safe, Next, Enabled, Orphan, Proper;
    SafeStep(s, e);
    var s' := Next(s, e);
    forall x | 0 <= x < |s'.disk| && s'.disk[x].typ != 0 && s'.disk[x].nlink == 0
      ensures Minded(s', x) || Orphan(boot, x)
    {
      SameDiskSize(s, e);
      if s.disk[x].typ != 0 && s.disk[x].nlink == 0 {
        if a :| a in s.allocs && s.allocs[a] == x {
          AllocStaysMinded(s, e, a, x);
        } else if t :| Minds(s, t, x) {
          StaysMinded(s, e, t, x);
        }
      } else {
        NewlyUnlinked(s, e, x);
      }
    }
  }

  lemma SameDiskSize(s: State, e: Event)
    requires Enabled(s, e)
    ensures |Next(s, e).disk| == |s.disk|
  {
  }

  lemma AllocStaysMinded(s: State, e: Event, a: nat, x: nat)
    requires Safe(s) && Enabled(s, e) && Safe(Next(s, e)) && a in s.allocs && s.allocs[a] == x
    ensures Minded(Next(s, e), x)
  {
    hide Safe;
    var s' := Next(s, e);
    if e.IgetNew? && e.t == a {
      InSafe(s', a);
      assert Minds(s', a, x);
    } else {
      assert a in s'.allocs && s'.allocs[a] == x;
    }
  }

  lemma InSafe(s: State, t: nat)
    requires Safe(s) && t in s.ptrs
    ensures Live(s, t)
  {
  }

  lemma NewlyUnlinked(s: State, e: Event, x: nat)
    requires Safe(s) && Enabled(s, e) && Safe(Next(s, e)) && x < |s.disk| && x < |Next(s, e).disk|
    requires s.disk[x].typ == 0 || s.disk[x].nlink > 0
    requires Next(s, e).disk[x].typ != 0 && Next(s, e).disk[x].nlink == 0
    ensures Minded(Next(s, e), x)
  {
    hide Sound, UsersOk, AllocsOk;
    var s' := Next(s, e);
    if e.Ialloc? {
      assert e.t in s'.allocs && s'.allocs[e.t] == x;
    } else {
      if e.Itrunc? {
        UnderReleaseOnDisk(s, e.t);
        assert false;
      }
      assert e.Iupdate?;
      UpdaterMinds(s, e.t);
      assert Minds(s', e.t, x);
    }
  }

  lemma UnderReleaseOnDisk(s: State, t: nat)
    requires Sound(s) && Live(s, t) && s.ptrs[t].phase in {Trunc, Emptied}
    ensures s.disk[Inum(s, t)] == s.slots[s.ptrs[t].slot].copy && s.disk[Inum(s, t)].typ != 0
    ensures s.disk[Inum(s, t)].nlink == 0
  {
    Referenced(s, t);
    assert PtrOk(s, t) && InSync(s, s.ptrs[t].slot);
    assert !Apart(s, s.ptrs[t].slot);
  }

  lemma UpdaterMinds(s: State, t: nat)
    requires Safe(s) && Enabled(s, Iupdate(t))
    ensures Settled(s, s.ptrs[t].slot)
  {
    assert PtrOk(s, t);
  }

  lemma StaysMinded(s: State, e: Event, t: nat, x: nat)
    requires Safe(s) && Enabled(s, e) && Safe(Next(s, e)) && Minds(s, t, x) && x < |s.disk|
    requires s.disk[x].typ != 0 && s.disk[x].nlink == 0
    requires x < |Next(s, e).disk| && Next(s, e).disk[x].typ != 0
    ensures Minded(Next(s, e), x)
  {
    if e.IputDrop? && e.t == t {
      MindsDrop(s, t, x);
    } else {
      hide Safe, Next, Enabled, Minds;
      if Getting(e) {
        MindsGet(s, e, t, x);
      } else {
        MindsUse(s, e, t, x);
      }
      assert Minds(Next(s, e), t, x);
    }
  }

  lemma MindsDrop(s: State, t: nat, x: nat)
    requires Safe(s) && Enabled(s, IputDrop(t)) && Minds(s, t, x) && x < |s.disk| && s.disk[x].nlink == 0
    ensures Minded(Next(s, IputDrop(t)), x)
  {
    hide BusyOwned, AllocsOk, Synced, FreeUnlinked, OneOwner, OneSlot;
    LastDropIsSeen(s, t, x);
    var u := AnotherPtr(s, t);
    assert Minds(Next(s, IputDrop(t)), u, x);
  }

  lemma Unowned(s: State, i: nat)
    requires BusyOwned(s) && i < |s.slots| && !s.slots[i].busy
    ensures forall t :: t in s.ptrs && s.ptrs[t].slot == i ==> !Owning(s.ptrs[t].phase)
  {
    assert !HasOwner(s, i);
  }

  lemma MindsGet(s: State, e: Event, t: nat, x: nat)
    requires Safe(s) && Enabled(s, e) && Minds(s, t, x) && Getting(e)
    ensures Minds(Next(s, e), t, x)
  {
    hide Counted, BusyOwned, AllocsOk, OneSlot, OneOwner, Synced, PtrsOk, FreeUnlinked;
    Referenced(s, t);
  }

  lemma MindsUse(s: State, e: Event, t: nat, x: nat)
    requires Safe(s) && Enabled(s, e) && Minds(s, t, x) && x < |s.disk| && !Getting(e)
    requires x < |Next(s, e).disk| && Next(s, e).disk[x].typ != 0 && !(e.IputDrop? && e.t == t)
    ensures Minds(Next(s, e), t, x)
  {
    hide Safe, Next, Enabled;
    UsesPtr(s, e);
    if s.ptrs[e.t].slot != s.ptrs[t].slot {
      Elsewhere(s, e, t);
    } else {
      MindsSame(s, e, t, x);
    }
  }

  lemma MindsSame(s: State, e: Event, t: nat, x: nat)
    requires Safe(s) && Enabled(s, e) && Minds(s, t, x) && x < |s.disk| && !Getting(e)
    requires x < |Next(s, e).disk| && Next(s, e).disk[x].typ != 0 && !(e.IputDrop? && e.t == t)
    requires s.ptrs[e.t].slot == s.ptrs[t].slot
    ensures Minds(Next(s, e), t, x)
  {
    hide Counted, BusyOwned, AllocsOk, UsersOk, Synced, FreeUnlinked, Alive, OneSlot;
    var s', i := Next(s, e), s.ptrs[t].slot;
    assert PtrOk(s, e.t);
    assert t in s'.ptrs && s'.ptrs[t].slot == i && s'.slots[i].inum == x;
    if e.Ilock? {
      Unowned(s, i);
    }
    if s'.ptrs[t].phase !in {Fresh, Filling} {
      assert s'.slots[i].valid;
    }
  }

  /** Dropping a valid pointer to an unlinked inode, and not the last one, leaves another. */
  lemma LastDropIsSeen(s: State, t: nat, x: nat)
    requires Safe(s) && Enabled(s, IputDrop(t)) && Minds(s, t, x) && s.disk[x].nlink == 0
    ensures s.slots[s.ptrs[t].slot].ref > 1
  {
    Referenced(s, t);
    var i := s.ptrs[t].slot;
    assert InSync(s, i);
    if s.slots[i].ref == 1 {
      NotApart(s, t);
      assert false;
    }
  }

  lemma AnotherPtr(s: State, t: nat) returns (u: nat)
    requires Counted(s) && Live(s, t) && s.slots[s.ptrs[t].slot].ref > 1
    ensures u in s.ptrs && u != t && s.ptrs[u].slot == s.ptrs[t].slot
  {
    var all := Ptrs(s.ptrs, s.ptrs[t].slot);
    assert t in all && |all - {t}| > 0;
    u :| u in all - {t};
  }

  // ---------------------------------------------------------------------------------------------
  // Whole runs

  lemma {:induction false} RunSound(s: State, es: seq<Event>)
    requires Boot(s) && Feasible(s, es)
    ensures Sound(After(s, es))
    decreases |es|
  {
    if es == [] {
      BootSafe(s);
    } else {
      hide Sound, Next, Enabled;
      var es0 := es[..|es| - 1];
      RunSound(s, es0);
      SoundStep(After(s, es0), es[|es| - 1]);
    }
  }

  /** Every iget of the run is of a number in use. */
  ghost predicate Tidy(s: State, es: seq<Event>)
    requires Feasible(s, es)
    decreases |es|
  {
    es == [] || (Tidy(s, es[..|es| - 1]) && Proper(After(s, es[..|es| - 1]), es[|es| - 1]))
  }

  lemma {:induction false} RunSafe(s: State, es: seq<Event>)
    requires Safe(s) && Feasible(s, es) && Tidy(s, es)
    ensures Safe(After(s, es))
    decreases |es|
  {
    hide Safe, Next, Enabled, Proper;
    if es != [] {
      var es0 := es[..|es| - 1];
      RunSafe(s, es0);
      SafeStep(After(s, es0), es[|es| - 1]);
    }
  }

  lemma {:induction false} RunMinded(s: State, es: seq<Event>)
    requires Boot(s) && Feasible(s, es) && Tidy(s, es)
    ensures Safe(After(s, es)) && NoOrphans(After(s, es), s)
    decreases |es|
  {
    BootSafe(s);
    hide Safe, NoOrphans, Next, Enabled, Proper;
    RunSafe(s, es);
    if es != [] {
      var es0 := es[..|es| - 1];
      RunMinded(s, es0);
      NoOrphansStep(After(s, es0), es[|es| - 1], s);
    }
  }

  lemma BootSafe(s: State)
    requires Boot(s)
    ensures Safe(s) && NoOrphans(s, s)
  {
    assert forall i: nat :: Ptrs(s.ptrs, i) == {};
  }

  /** An inode number has at most one referenced slot. */
  lemma OneSlotPerInode(s: State, es: seq<Event>, i: nat, j: nat)
    requires Boot(s) && Feasible(s, es) && i < |After(s, es).slots| && j < |After(s, es).slots|
    requires After(s, es).slots[i].ref > 0 && After(s, es).slots[j].ref > 0
    requires After(s, es).slots[i].inum == After(s, es).slots[j].inum
    ensures i == j
  {
    RunSound(s, es);
  }

  /** The reference count of a slot is the number of outstanding pointers to it. */
  lemma RefIsPointers(s: State, es: seq<Event>, i: nat)
    requires Boot(s) && Feasible(s, es) && i < |After(s, es).slots|
    ensures After(s, es).slots[i].ref == |Ptrs(After(s, es).ptrs, i)|
  {
    RunSound(s, es);
  }

  /** I_BUSY has exactly one holder, and a holder that owes nothing sees exactly what is on disk. */
  lemma OneBusyHolder(s: State, es: seq<Event>, t: nat)
    requires Boot(s) && Feasible(s, es) && t in After(s, es).ptrs && Owning(After(s, es).ptrs[t].phase)
    ensures var z := After(s, es);
            && Live(z, t) && z.slots[z.ptrs[t].slot].busy
            && (forall u :: u in z.ptrs && u != t && z.ptrs[u].slot == z.ptrs[t].slot ==> !Owning(z.ptrs[u].phase))
            && (z.ptrs[t].phase == Locked ==> z.slots[z.ptrs[t].slot].copy == z.disk[Inum(z, t)])
  {
    RunSound(s, es);
    var z := After(s, es);
    assert PtrOk(z, t) && InSync(z, z.ptrs[t].slot);
    assert HasOwner(z, z.ptrs[t].slot);
    Referenced(z, t);
    assert z.ptrs[t].phase == Locked ==> !Apart(z, z.ptrs[t].slot);
  }

  /** In every run, whoever has locked an inode and read it has an allocated one. */
  lemma LockedIsAllocated(s: State, es: seq<Event>, t: nat)
    requires Boot(s) && Feasible(s, es) && t in After(s, es).ptrs
    requires After(s, es).ptrs[t].phase in {Locked, Dirty, Trunc, Emptied}
    ensures var z := After(s, es); Live(z, t) && z.disk[Inum(z, t)].typ != 0
  {
    RunSound(s, es);
    assert PtrOk(After(s, es), t);
  }

  /** Where iget is given only numbers in use, no pointer outlives its inode: whoever is not at the end of
      the iput that freed it still has an allocated inode on disk, and ilock's panic "no type" cannot happen. */
  lemma NoUseAfterFree(s: State, es: seq<Event>, t: nat)
    requires Boot(s) && Feasible(s, es) && Tidy(s, es) && t in After(s, es).ptrs
    ensures var z := After(s, es);
            Live(z, t) && (z.ptrs[t].phase != Freed ==> z.disk[Inum(z, t)].typ != 0) && !NoType(z, t)
  {
    BootSafe(s);
    RunSafe(s, es);
    assert UserOk(After(s, es), t);
  }

  /** In every run, iput's panic "iput busy" is unreachable and what it frees is allocated and has no links;
      and where iget is given only numbers in use, no other pointer and no ialloc refers to it. */
  lemma FreeIsLastDrop(s: State, es: seq<Event>, t: nat)
    requires Boot(s) && Feasible(s, es)
    ensures Enabled(After(s, es), IputStart(t)) ==> !After(s, es).slots[After(s, es).ptrs[t].slot].busy
    ensures Enabled(After(s, es), Ifree(t)) ==>
              var z := After(s, es);
              var x := Inum(z, t);
              && z.disk[x].typ != 0 && z.disk[x].nlink == 0
              && (Tidy(s, es) ==>
                    && (forall u :: u in z.ptrs && u != t ==> Live(z, u) && Inum(z, u) != x)
                    && (forall a :: a in z.allocs ==> z.allocs[a] != x))
  {
    hide Sound, Safe, Enabled;
    RunSound(s, es);
    var z := After(s, es);
    if Enabled(z, IputStart(t)) {
      NotBusy(z, t);
    }
    if Enabled(z, Ifree(t)) {
      IfreeIsEmptied(z, t);
      UnderReleaseOnDisk(z, t);
      if Tidy(s, es) {
        RunMinded(s, es);
        OnlyUser(z, t);
      }
    }
  }

  lemma IfreeIsEmptied(z: State, t: nat)
    requires Enabled(z, Ifree(t))
    ensures Live(z, t) && z.ptrs[t].phase == Emptied
  {
  }

  lemma NotBusy(z: State, t: nat)
    requires Sound(z) && Enabled(z, IputStart(t))
    ensures Live(z, t) && !z.slots[z.ptrs[t].slot].busy
  {
    hide Synced, PtrsOk, OneSlot;
    Referenced(z, t);
    assert !HasOwner(z, z.ptrs[t].slot);
  }

  lemma OnlyUser(z: State, t: nat)
    requires Safe(z) && Live(z, t) && z.ptrs[t].phase == Emptied
    ensures var x := Inum(z, t);
            && (forall u :: u in z.ptrs && u != t ==> Live(z, u) && Inum(z, u) != x)
            && (forall a :: a in z.allocs ==> z.allocs[a] != x)
  {
    var x := Inum(z, t);
    assert UserOk(z, t);
    Referenced(z, t);
    forall u | u in z.ptrs && u != t ensures Inum(z, u) != x {
      Referenced(z, u);
    }
    forall a | a in z.allocs ensures z.allocs[a] != x {
      assert AllocOk(z, a);
    }
  }

  /** How often the run allocates number `x`, and how often it frees it. */
  ghost function Allocations(es: seq<Event>, x: nat): nat {
    if es == [] then 0
    else
      var e := es[|es| - 1];
      Allocations(es[..|es| - 1], x) + if e.Ialloc? && e.x == x then 1 else 0
  }

  ghost function Frees(s: State, es: seq<Event>, x: nat): nat
    requires Feasible(s, es)
    decreases |es|
  {
    if es == [] then 0
    else
      var z, e := After(s, es[..|es| - 1]), es[|es| - 1];
      Frees(s, es[..|es| - 1], x) + if e.Ifree? && Inum(z, e.t) == x then 1 else 0
  }

  function Taken(s: State, x: nat): nat
    requires x < |s.disk|
  {
    if s.disk[x].typ != 0 then 1 else 0
  }

  /** Every allocation is freed at most once: frees and allocations of a number balance exactly. */
  lemma {:induction false} FreedOncePerAllocation(s: State, es: seq<Event>, x: nat)
    requires Boot(s) && Feasible(s, es) && x < |s.disk|
    ensures |After(s, es).disk| == |s.disk|
    ensures Frees(s, es, x) + Taken(After(s, es), x) == Allocations(es, x) + Taken(s, x)
    decreases |es|
  {
    if es != [] {
      var es0, e := es[..|es| - 1], es[|es| - 1];
      FreedOncePerAllocation(s, es0, x);
      RunSound(s, es0);
      TakenStep(After(s, es0), e, x);
    }
  }

  lemma TakenStep(z: State, e: Event, x: nat)
    requires Sound(z) && Enabled(z, e) && x < |z.disk|
    ensures |Next(z, e).disk| == |z.disk|
    ensures (if e.Ifree? && Inum(z, e.t) == x then 1 else 0) + Taken(Next(z, e), x) ==
            (if e.Ialloc? && e.x == x then 1 else 0) + Taken(z, x)
  {
    hide Counted, OneSlot, OneOwner, BusyOwned, Synced;
    assert e.Iupdate? || e.Itrunc? || e.Ifree? ==> PtrOk(z, e.t);
  }

  /** An orphan stays one through a step if and only if that is no iget of its number, which no name and no
      pointer leads to. */
  lemma OrphanStepIff(s: State, e: Event, x: nat)
    requires Sound(s) && Orphan(s, x) && Enabled(s, e)
    ensures Orphan(Next(s, e), x) <==> !(e.Iget? && e.x == x)
  {
    hide Counted, OneSlot, OneOwner, BusyOwned, Synced, PtrsOk;
    var s' := Next(s, e);
    assert Live(s, e.t) ==> Inum(s, e.t) != x;
    if (e.Iget? || e.IgetNew?) && s.slots[e.i].ref == 0 {
      Unreferenced(s, e.i);
    }
    if e.Iget? && e.x == x {
      assert Live(s', e.t) && Inum(s', e.t) == x;
    } else {
      forall t | Live(s', t) ensures Inum(s', t) != x {
        assert t in s.ptrs ==> Live(s, t);
      }
    }
  }

  /** No iget of the run is of number `x`. */
  predicate NeverGets(es: seq<Event>, x: nat) { forall k :: 0 <= k < |es| ==> !(es[k].Iget? && es[k].x == x) }

  lemma {:induction false} OrphanForever(s: State, es: seq<Event>, x: nat)
    requires Boot(s) && Feasible(s, es) && Orphan(s, x) && NeverGets(es, x)
    ensures Orphan(After(s, es), x)
    decreases |es|
  {
    hide Sound, Next, Enabled, Orphan;
    if es != [] {
      var es0 := es[..|es| - 1];
      OrphanForever(s, es0, x);
      RunSound(s, es0);
      OrphanStepIff(After(s, es0), es[|es| - 1], x);
    }
  }

  /** When every pointer has been dropped, an inode is allocated and has no link if and only if it was so at
      the start: a run leaks nothing of its own, and recovers nothing that no name led to. */
  lemma LeaksIffOrphanedBefore(s: State, es: seq<Event>, x: nat)
    requires Boot(s) && Feasible(s, es) && Tidy(s, es) && (Orphan(s, x) ==> NeverGets(es, x))
    requires After(s, es).ptrs == map[] && After(s, es).allocs == map[] && x < |After(s, es).disk|
    ensures After(s, es).disk[x].typ != 0 && After(s, es).disk[x].nlink == 0 <==> Orphan(s, x)
  {
    hide Safe;
    RunMinded(s, es);
    var z := After(s, es);
    if z.disk[x].typ != 0 && z.disk[x].nlink == 0 {
      assert !Minded(z, x);
    }
    if Orphan(s, x) {
      OrphanForever(s, es, x);
    }
  }

  // ---------------------------------------------------------------------------------------------
  // Building runs

  lemma StartRun(s: State)
    ensures Feasible(s, []) && After(s, []) == s
  {
  }

  lemma Snoc(s: State, es: seq<Event>, e: Event)
    requires Feasible(s, es) && Enabled(After(s, es), e)
    ensures Feasible(s, es + [e]) && After(s, es + [e]) == Next(After(s, es), e)
  {
    assert (es + [e])[..|es|] == es;
  }

  // ---------------------------------------------------------------------------------------------
  // Calls go on

  /** Over every run whoever has a pointer can go on with it: lock it unless it is locked, drop it in exactly one of
      the two ways, and once iput has begun to free the inode carry that through; ilock stops only at its panic. */
  lemma PointerGoesOn(s: State, es: seq<Event>, t: nat)
    requires Boot(s) && Feasible(s, es) && t in After(s, es).ptrs
    ensures var z := After(s, es);
            && z.ptrs[t].slot < |z.slots|
            && var f := z.slots[z.ptrs[t].slot];
            match z.ptrs[t].phase
            case Idle =>
              && (Enabled(z, Ilock(t)) <==> !f.busy)
              && (Enabled(z, IputStart(t)) <==> LastDrop(f)) && (Enabled(z, IputDrop(t)) <==> !LastDrop(f))
            case Fresh => Enabled(z, Ilock(t)) <==> !f.busy
            case Filling => Enabled(z, Fill(t)) <==> !NoType(z, t)
            case Locked => Enabled(z, Iunlock(t)) && Enabled(z, Iupdate(t))
            case Dirty => Enabled(z, Iupdate(t))
            case Trunc => Enabled(z, Itrunc(t)) && Next(z, Itrunc(t)).ptrs == z.ptrs[t := Ptr(z.ptrs[t].slot, Emptied)]
            case Emptied => Enabled(z, Ifree(t)) && Next(z, Ifree(t)).ptrs == z.ptrs[t := Ptr(z.ptrs[t].slot, Freed)]
            case Freed => Enabled(z, IputEnd(t)) && Next(z, IputEnd(t)).ptrs == z.ptrs - {t}
  {
    RunSound(s, es);
    PtrGoesOn(After(s, es), t);
  }

  lemma PtrGoesOn(z: State, t: nat)
    requires t in z.ptrs && Live(z, t)
    ensures var f := z.slots[z.ptrs[t].slot];
            match z.ptrs[t].phase
            case Idle =>
              && (Enabled(z, Ilock(t)) <==> !f.busy)
              && (Enabled(z, IputStart(t)) <==> LastDrop(f)) && (Enabled(z, IputDrop(t)) <==> !LastDrop(f))
            case Fresh => Enabled(z, Ilock(t)) <==> !f.busy
            case Filling => Enabled(z, Fill(t)) <==> !NoType(z, t)
            case Locked => Enabled(z, Iunlock(t)) && Enabled(z, Iupdate(t))
            case Dirty => Enabled(z, Iupdate(t))
            case Trunc => Enabled(z, Itrunc(t)) && Next(z, Itrunc(t)).ptrs == z.ptrs[t := Ptr(z.ptrs[t].slot, Emptied)]
            case Emptied => Enabled(z, Ifree(t)) && Next(z, Ifree(t)).ptrs == z.ptrs[t := Ptr(z.ptrs[t].slot, Freed)]
            case Freed => Enabled(z, IputEnd(t)) && Next(z, IputEnd(t)).ptrs == z.ptrs - {t}
  {
  }
}
