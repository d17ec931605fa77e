/** vm.c and kalloc.c in place: physical memory and the free list are the fields, page directories
    are pages of that memory.  The ghost argument `sp` of each method is the space the directory
    stands for; the ghost result is the space it stands for afterwards. */
module VmCode {
  import opened Common
  import opened Break
  import opened VmSpec
  import opened VmDealloc

  class Vm {
    var mem: Memory
    var free: seq<nat>      // kmem.freelist, first page first

    /** freerange: the pages from `lo` up to `hi` are freed, one after the other. */
    constructor (lo: nat, hi: nat)
      requires lo <= hi
      ensures NoDup(free) && (forall f :: f in free <==> lo <= f < hi) && forall f :: f in free ==> f in mem
    {
      mem, free := map[], [];
      new;
      for f := lo to hi
        invariant NoDup(free) && (forall g :: g in free <==> lo <= g < f) && forall g :: g in free ==> g in mem
      {
        NoDupCons(f, free);
        mem := mem[f := Junk];
        Kfree(f);
      }
    }

    method Kalloc() returns (r: Option<nat>)
      modifies this`free
      ensures r == if old(free) == [] then None else Some(old(free)[0])
      ensures free == if old(free) == [] then [] else old(free)[1..]
    {
      if free == [] {
        return None;
      }
      r := Some(free[0]);
      free := free[1..];
    }

    method Kfree(f: nat)
      requires f in mem      // else panic "kfree"
      modifies this
      ensures mem == old(mem)[f := Junk] && free == [f] + old(free)
    {
      mem := mem[f := Junk];
      free := [f] + free;
    }

    /** walkpgdir: the page table that covers virtual page `v`, created if `alloc` and needed. */
    method WalkPgdir(d: nat, v: nat, alloc: bool, ghost sp: Space) returns (t: Option<nat>, ghost sp': Space)
      requires SpaceOk(mem, sp, free) && d == sp.dir && v < VPAGES
      modifies this
      ensures SpaceOk(mem, sp', free) && sp'.dir == d && sp'.pages == sp.pages
      ensures TablesConserved(sp, old(free), sp', free) && TablesOnly(old(mem), sp, old(free), mem)
      ensures t.Some? ==> Pdx(v) in sp'.tables && t.value == sp'.tables[Pdx(v)]
      ensures t.None? ==> sp' == sp && mem == old(mem) && free == old(free) && Pdx(v) !in sp.tables
      ensures t.None? <==> Pdx(v) !in sp.tables && (!alloc || old(free) == [])
      ensures sp' == sp ==> mem == old(mem) && free == old(free)
      ensures Pdx(v) in sp.tables ==> sp' == sp
      ensures t.Some? ==> Tabled(sp, old(free), sp', free, v, 1)
    {
      hide Rep, OneRole, FreeOk, Owns, TablesConserved, TablesOnly, Tabled;
      sp' := sp;
      SameIsConserved(mem, sp, free);
      DirEntry(mem, sp, v);
      var pde := mem[d].entries[v / ENTRIES];
      if pde.Present? {
        t := Some(pde.frame);
        TabledAlready(sp, free, v);
        return;
      }
      if !alloc {
        t := None;
        return;
      }
      ghost var f0, m0 := free, mem;
      t := Kalloc();
      if t.None? {
        return;
      }
      WalkAdds(m0, sp, f0, Pdx(v));
      mem := mem[t.value := Table(EmptyTable())];
      mem := WithEntry(mem, d, v / ENTRIES, Present(t.value, PTE_W + PTE_U));
      sp' := sp.(tables := sp.tables[Pdx(v) := t.value]);
      TabledNew(sp, f0, v);
    }

    /** mappages: map the pages that [va, va + size) touches to consecutive frames from pa on.  On
        failure, for want of a page for a table, the first `k` of them stay mapped. */
    method MapPages(d: nat, va: nat, size: nat, pa: nat, perm: nat, ghost sp: Space)
      returns (r: int, ghost sp': Space, ghost k: nat)
      requires SpaceOk(mem, sp, free) && d == sp.dir && size >= 1 && va + size <= VPAGES * PGSIZE
      requires forall v :: First(va) <= v <= Last(va, size) ==> v !in sp.pages    // else panic "remap"
      requires Unowned(mem, sp, free, First(va), Count(va, size), pa / PGSIZE)
      modifies this
      ensures SpaceOk(mem, sp', free) && sp'.dir == d
      ensures k <= Count(va, size) && sp'.pages == MapN(sp.pages, First(va), k, pa / PGSIZE, perm)
      ensures r == if k == Count(va, size) then 0 else -1
      ensures r == -1 ==> free == [] && Pdx(First(va) + k) !in sp'.tables
      ensures TablesConserved(sp, old(free), sp', free) && TablesOnly(old(mem), sp, old(free), mem)
      ensures Tabled(sp, old(free), sp', free, First(va), k)
    {
      hide Rep, OneRole, FreeOk, Owns, TablesConserved, TablesOnly, SpaceOk, Unowned, OwnsTable, Tabled, Slots;
      var a := va / PGSIZE;
      var last := (va + size - 1) / PGSIZE;
      var f := pa / PGSIZE;
      ghost var f0 := f;
      sp', k := sp, 0;
      SameIsConserved(mem, sp, free);
      TabledNone(sp, free, First(va));
      while true
        invariant SpaceOk(mem, sp', free) && sp'.dir == d
        invariant a == First(va) + k <= last && last == Last(va, size) && f == f0 + k
        invariant sp'.pages == MapN(sp.pages, First(va), k, f0, perm)
        invariant TablesConserved(sp, old(free), sp', free) && TablesOnly(old(mem), sp, old(free), mem)
        invariant Tabled(sp, old(free), sp', free, First(va), k)
        decreases last - a
      {
        var t;
        ghost var m1, sp1, free1 := mem, sp', free;
        t, sp' := WalkPgdir(d, a, true, sp');
        TablesOnlyTwice(old(mem), sp, old(free), m1, sp1, free1, mem);
        TablesConservedTwice(sp, old(free), sp1, free1, sp', free);
        if t.None? {
          return -1, sp', k;
        }
        TabledStep(sp, old(free), sp1, free1, sp', free, First(va), k, Present(f, perm));
        MapNMisses(sp.pages, First(va), k, f0, perm, a);
        StillUnowned(old(mem), mem, sp, old(free), sp', free, First(va), k, Count(va, size), f0, perm);
        MapsOne(mem, sp', free, a, f, perm);
        ghost var m2, sp2 := mem, sp';
        mem := WithEntry(mem, t.value, a % ENTRIES, Present(f, perm));
        sp' := SetPage(sp', a, Present(f, perm));
        TablesOnlyTwice(old(mem), sp, old(free), m2, sp2, free, mem);
        TablesConservedTwice(sp, old(free), sp2, free, sp', free);
        k := k + 1;
        if a == last {
          return 0, sp', k;
        }
        a := a + 1;
        f := f + 1;
      }
    }

    /** deallocuvm: free the user pages of [newsz, oldsz) that the loop visits. */
    method DeallocUvm(d: nat, oldsz: nat, newsz: nat, ghost sp: Space) returns (r: nat, ghost sp': Space)
      requires SpaceOk(mem, sp, free) && d == sp.dir && oldsz <= USER * PGSIZE
      modifies this
      ensures SpaceOk(mem, sp', free) && r == if newsz >= oldsz then oldsz else newsz
      ensures sp' == if newsz >= oldsz then sp
                     else sp.(pages := Dealloc(sp.tables, sp.pages, PageUp(newsz), PageUp(oldsz)))
      ensures Conserved(sp, old(free), sp', free) && Untouched(old(mem), sp, old(free), mem)
      ensures KeepsPages(old(mem), sp, mem, sp')
    {
      hide Rep, OneRole, FreeOk, Owns, Conserved, Untouched, SpaceOk, Dealloc, KeepsPages, OwnsPage, Tabled;
      sp' := sp;
      NothingChanged(mem, sp, free);
      PagesInMemory(mem, sp, free);
      if newsz >= oldsz {
        return oldsz, sp;
      }
      var a := (newsz + PGSIZE - 1) / PGSIZE;
      while a * PGSIZE < oldsz
        invariant SpaceOk(mem, sp', free) && sp'.dir == d && sp'.tables == sp.tables
        invariant Dealloc(sp.tables, sp.pages, PageUp(newsz), PageUp(oldsz)) ==
                  Dealloc(sp.tables, sp'.pages, a, PageUp(oldsz))
        invariant Conserved(sp, old(free), sp', free) && Untouched(old(mem), sp, old(free), mem)
        invariant KeepsPages(old(mem), sp, mem, sp')
        decreases PageUp(oldsz) - a
      {
        var t;
        ghost var sp0 := sp';
        t, sp' := WalkPgdir(d, a, false, sp');
        DeallocStep(sp.tables, sp'.pages, a, PageUp(oldsz));
        if t.None? {
          a := a + (ENTRIES - 1);
        } else {
          EntryOf(mem, sp', free, a);
          var pte := mem[t.value].entries[a % ENTRIES];
          if pte.Present? {
            UnmapsOne(mem, sp', free, a);
            ghost var m1, free1 := mem, free;
            Kfree(pte.frame);
            mem := WithEntry(mem, t.value, a % ENTRIES, Absent);
            ghost var sp1 := sp';
            sp' := SetPage(sp', a, Absent);
            UntouchedTwice(old(mem), sp, old(free), m1, sp1, free1, sp', free, mem);
            KeepsTwice(old(mem), sp, m1, sp1, mem, sp');
          }
        }
        a := a + 1;
      }
      DeallocDone(sp.tables, sp'.pages, a, PageUp(oldsz));
      r := newsz;
    }

    /** allocuvm: grow the user part from oldsz to newsz with zeroed pages, or leave the user translation as it was
        and return 0.  It succeeds if and only if there are pages for the new part and for the tables it lacks. */
    method AllocUvm(d: nat, oldsz: nat, newsz: nat, ghost sp: Space) returns (r: nat, ghost sp': Space)
      requires SpaceOk(mem, sp, free) && d == sp.dir && UserPrefix(sp, PageUp(oldsz)) && oldsz < USER * PGSIZE
      modifies this
      ensures SpaceOk(mem, sp', free) && sp'.dir == d && Conserved(sp, old(free), sp', free)
      ensures Untouched(old(mem), sp, old(free), mem)
      ensures newsz >= USER * PGSIZE ==> r == 0
      ensures oldsz <= newsz < USER * PGSIZE ==> r == if HasRoom(sp, old(free), oldsz, newsz) then newsz else 0
      ensures newsz < oldsz ==> r == oldsz && sp' == sp
      ensures oldsz <= newsz && r == newsz > 0 ==>
                && UserPrefix(sp', PageUp(newsz))
                && Grown(old(mem), sp, old(free), mem, sp', PageUp(oldsz), PageUp(newsz))
      ensures r == 0 && newsz > 0 ==> sp'.pages == sp.pages && SamePages(old(mem), sp, mem)
    {
      hide Rep, OneRole, FreeOk, Owns, Conserved, Untouched, SpaceOk, Dealloc, TablesConserved,
        TablesOnly, OwnsPage, Grown, UserPrefix, SamePages, KeepsPages, MapN, Unowned, Tabled, Spent, HasRoom, PageUp;
      sp' := sp;
      NothingChanged(mem, sp, free);
      GrownNone(mem, sp, free, PageUp(oldsz));
      SpentNone(sp, free, oldsz, newsz);
      UpIs(oldsz, newsz);
      if newsz >= USER * PGSIZE {
        return 0, sp;
      }
      if newsz < oldsz {
        return oldsz, sp;
      }
      var a := (oldsz + PGSIZE - 1) / PGSIZE;
      while a * PGSIZE < newsz
        invariant PageUp(oldsz) <= a <= PageUp(newsz) && SpaceOk(mem, sp', free) && sp'.dir == d
        invariant UserPrefix(sp', a) && Grown(old(mem), sp, old(free), mem, sp', PageUp(oldsz), a)
        invariant Conserved(sp, old(free), sp', free) && Sub(free, old(free))
        invariant Untouched(old(mem), sp, old(free), mem)
        invariant Spent(sp, old(free), sp', free, PageUp(oldsz), a - PageUp(oldsz))
        decreases PageUp(newsz) - a
      {
        ghost var m1, sp1, free1 := mem, sp', free;
        BelowUp(a, newsz);
        var f := Kalloc();
        if f.None? {
          SpentShort(sp, old(free), sp1, free1, oldsz, newsz, a);
          r, sp' := DeallocUvm(d, newsz, oldsz, sp');
          UndoPages(old(mem), sp, old(free), m1, sp1, free1, PageUp(oldsz), a, PageUp(newsz), mem, sp');
          UntouchedTwice(old(mem), sp, old(free), m1, sp1, free1, sp', free, mem);
          return 0, sp';
        }
        TakePage(mem, sp', free1, Bytes(ZeroBytes()), a);
        mem := mem[f.value := Bytes(ZeroBytes())];
        var c; ghost var k;
        NextPage(sp', a);
        c, sp', k := MapPages(d, a * PGSIZE, PGSIZE, f.value * PGSIZE, PTE_W + PTE_U, sp');
        MapKeeps(m1, sp1, free1, Bytes(ZeroBytes()), mem);
        MapConserves(sp1, free1, sp', free, a, k, PTE_W + PTE_U);
        MapTouches(m1, sp1, free1, Bytes(ZeroBytes()), mem);
        StillUntouched(old(mem), sp, old(free), m1, sp1, free1, mem);
        SpentStep(sp, old(free), sp1, free1, sp', free, oldsz, newsz, a, k);
        if c < 0 {
          ghost var m3, sp3, free3 := mem, sp', free;
          GrownStays(old(mem), sp, old(free), m1, sp1, f.value, m3, sp3, PageUp(oldsz), a);
          r, sp' := DeallocUvm(d, newsz, oldsz, sp');
          UndoPages(old(mem), sp, old(free), m3, sp3, free3, PageUp(oldsz), a, PageUp(newsz), mem, sp');
          ConservedTwice(sp1, free1[1..], sp3, free3, sp', free);
          SameKeys(m3, sp3, free3, mem);
          UndoTouches(old(mem), sp, old(free), sp1, free1, m3, sp3, free3, mem);
          GiveBack(old(mem), sp, old(free), sp1, free1, mem, sp', free);
          Kfree(f.value);
          return 0, sp';
        }
        GrowOne(old(mem), sp, old(free), m1, sp1, f.value, mem, sp', PageUp(oldsz), a);
        ConservedTwice(sp, old(free), sp1, free1, sp', free);
        a := a + 1;
      }
      BelowUp(a, newsz);
      SpentAll(sp, old(free), sp', free, oldsz, newsz, a);
      r := newsz;
    }

    /** growproc: the outcome is that of Break.Grow with room exactly when the free list is long enough, and the user
        pages are the first ones up to what is then mapped; those that stay keep their frame, their flags and their
        contents.  They are the pages below the recorded size if and only if the size was not taken to exactly 0. */
    method Growproc(d: nat, sz: nat, n: int, ghost sp: Space)
      returns (r: int, sz': nat, ghost sp': Space)
      requires SpaceOk(mem, sp, free) && d == sp.dir && UserPrefix(sp, PageUp(sz)) && sz < KERNBASE && -INT <= n < INT
      modifies this
      ensures SpaceOk(mem, sp', free) && sp'.dir == d
      ensures Conserved(sp, old(free), sp', free) && Untouched(old(mem), sp, old(free), mem)
      ensures var g := Grow(sz, n, HasRoom(sp, old(free), sz, (sz + n) % UINT));
              && r == (if g.ok then 0 else -1) && sz' == g.sz && UserPrefix(sp', PageUp(g.mapped))
              && Kept(old(mem), sp, mem, sp', PageUp(g.mapped))
      ensures UserPrefix(sp', PageUp(sz')) <==> n >= 0 || sz + n != 0
    {
      hide Rep, OneRole, FreeOk, Owns, Conserved, Untouched, SpaceOk, Dealloc, KeepsPages, OwnsPage, Grown,
        SamePages, Kept, HasRoom;
      r, sz', sp' := 0, sz, sp;
      NothingChanged(mem, sp, free);
      KeptAll(mem, sp, free, PageUp(sz));
      if n > 0 {
        var s;
        s, sp' := AllocUvm(d, sz, (sz + n) % UINT, sp);
        KeptAfterAlloc(old(mem), sp, old(free), mem, sp', PageUp(sz), PageUp(sz + n), s);
        if s == 0 {
          return -1, sz, sp';
        }
        sz' := s;
      } else if n < 0 {
        var s;
        s, sp' := DeallocUvm(d, sz, (sz + n) % UINT, sp);
        if (sz + n) % UINT < sz {
          KeptAfterDealloc(old(mem), sp, old(free), mem, sp', PageUp((sz + n) % UINT), PageUp(sz));
          if s == 0 {
            PrefixUnique(sp', 0, PageUp(sz));
          }
        } else {
          KeptSame(old(mem), sp, mem, PageUp(sz));
        }
        if s == 0 {
          return -1, sz, sp';
        }
        sz' := s;
      }
    }

    /** freevm: every page the space owns goes back to the free list, each once. */
    method FreeVm(d: nat, ghost sp: Space)
      requires SpaceOk(mem, sp, free) && d == sp.dir
      modifies this
      ensures NoDup(free) && (forall f :: f in free <==> f in old(free) || Owns(sp, f))
      ensures Untouched(old(mem), sp, old(free), mem)
    {
      hide Rep, OneRole, FreeOk, Owns, Untouched, SpaceOk, Dealloc, OwnsPage, KeepsPages, Conserved,
        FreedTable, TableAt, OwnsTable, NoDup;
      var r; ghost var s1;
      r, s1 := DeallocUvm(d, USER * PGSIZE, 0, sp);
      NoUserPages(sp, old(mem), old(free), s1);
      ghost var m1, free1 := mem, free;
      FreeTablesStart(mem, s1, free);
      NothingChanged(mem, s1, free);
      var i := 0;
      while i < ENTRIES
        invariant i <= ENTRIES && FreeingTables(m1, s1, free1, mem, free, i)
      {
        FreeTablesStep(m1, s1, free1, mem, free, i);
        if mem[d].entries[i].Present? {
          Kfree(mem[d].entries[i].frame);
        }
        i := i + 1;
      }
      FreeTablesEnd(sp, old(mem), old(free), m1, s1, free1, mem, free);
      Kfree(d);
    }

    /** setupkvm: a new directory with the kernel's mappings.  It succeeds if and only if the free list has a
        page for the directory and one for each directory slot the mappings touch.  When it fails, every page
        it took is lost: that is all of a free list that is not empty but too short. */
    method SetupKvm(kmap: seq<KMap>) returns (r: Option<nat>, ghost sp: Space, ghost lost: iset<nat>)
      requires KmapOk(kmap) && NoDup(free) && (forall f :: f in free ==> f in mem)
      modifies this
      ensures r.Some? <==> |old(free)| >= KernelNeed(kmap)
      ensures lost != iset{} <==> 0 < |old(free)| < KernelNeed(kmap)
      ensures r.None? ==> free == [] && forall f :: f in lost <==> f in old(free)
      ensures r.Some? ==>
                && SpaceOk(mem, sp, free) && sp.dir == r.value && sp.pages == KernelPages(kmap, |kmap|)
                && TakenFrom(sp, free, old(free)) && sp.tables.Keys == KernelSlots(kmap, |kmap|)
                && |free| == |old(free)| - KernelNeed(kmap)
      ensures NoDup(free) && Outside(old(mem), old(free), mem) && Sub(free, old(free))
    {
      hide SpaceOk, TablesConserved, TablesOnly, MapN, Unowned, KernelPages, TakenFrom, Outside, NoDup, KernelSlots,
        KernelNeed, Tabled, Sub, KernelUpTo;
      sp, lost := Space(0, map[], map[]), iset{};
      OutsideSame(mem, free);
      NeedPositive(kmap);
      r := Kalloc();
      if r.None? {
        return;
      }
      mem := mem[r.value := Table(EmptyTable())];
      sp := Space(r.value, map[], map[]);
      KernelStart(old(mem), old(free), kmap);
      var i := 0;
      while i < |kmap|
        invariant i <= |kmap| && sp.dir == r.value
        invariant KernelUpTo(kmap, i, old(mem), old(free), mem, sp, free)
      {
        ghost var m1, sp1, free1 := mem, sp, free;
        var k := kmap[i];
        KernelRoom(kmap, i, old(mem), old(free), mem, sp, free);
        var c; ghost var n;
        c, sp, n := MapPages(r.value, k.va, k.size, k.pa, k.perm, sp);
        KernelStep(kmap, i, n, old(mem), old(free), m1, sp1, free1, mem, sp, free);
        if c < 0 {
          lost := iset f | f in old(free);
          assert old(free)[0] in lost;
          return None, sp, lost;
        }
        i := i + 1;
      }
      KernelEnd(kmap, old(mem), old(free), mem, sp, free);
    }

    /** copyuvm: a child space with copies of the parent's pages, or None.  How it ends, and so which pages
        it drops without freeing them, is decided by the length of the free list. */
    method CopyUvm(d: nat, sz: nat, kmap: seq<KMap>, ghost sp: Space)
      returns (r: Option<nat>, ghost c: Space, ghost lost: iset<nat>)
      requires SpaceOk(mem, sp, free) && d == sp.dir && UserPrefix(sp, PageUp(sz)) && KmapOk(kmap)
      modifies this
      ensures SpaceOk(mem, sp, free) && Outside(old(mem), old(free), mem)
      ensures r.Some? <==> CopyEnd(|old(free)|, KernelNeed(kmap), PageUp(sz)) == Done
      ensures r.Some? ==> SpaceOk(mem, c, free) && c.dir == r.value && UserPrefix(c, PageUp(sz))
      ensures r.Some? ==> Copied(old(mem), sp, mem, c, PageUp(sz)) && KernelPart(c, kmap)
      ensures forall f :: f in old(free) <==> f in free || f in lost || (r.Some? && Owns(c, f))
      ensures r.Some? ==> forall f :: f in free ==> !Owns(c, f)
      ensures forall f :: f in lost ==> f !in free && !(r.Some? && Owns(c, f))
      ensures match CopyEnd(|old(free)|, KernelNeed(kmap), PageUp(sz))
              case Done => lost == iset{}
              case NoDirectory => free == [] && lost == iset f | f in old(free)
              case NoPage => lost == iset{}
              case NoTable => exists f :: lost == iset{f}
      ensures lost != iset{} <==>
              0 < |old(free)| < KernelNeed(kmap) || CopyEnd(|old(free)|, KernelNeed(kmap), PageUp(sz)) == NoTable
    {
      hide Rep, OneRole, FreeOk, Owns, SpaceOk, OwnsPage, OwnsTable, TablesConserved, TablesOnly,
        MapN, Unowned, KernelPages, TakenFrom, Outside, NoDup, UserPrefix, Copied, KernelPart, SamePages,
        Conserved, Untouched, TakenExcept, Slots, KernelSlots, KernelNeed, CopyEnd, TablesFor, Tabled, UserTables;
      FreePages(mem, sp, free);
      r, c, lost := SetupKvm(kmap);
      ParentStays(old(mem), sp, old(free), mem, free);
      CopyEndIs(|old(free)|, KernelNeed(kmap), PageUp(sz), 0, 0);
      if r.None? {
        assert |old(free)| > 0 ==> old(free)[0] in lost;
        lost := iset f | f in old(free);
        return None, c, lost;
      }
      CopyStart(old(mem), sp, mem, c, kmap);
      TakenIff(c, free, old(free));
      lost := iset{};
      NoUserTables(kmap, c);
      var i := 0;
      while i * PGSIZE < sz
        invariant i <= PageUp(sz) && SpaceOk(mem, c, free) && c.dir == r.value && UserPrefix(c, i)
        invariant TakenFrom(c, free, old(free)) && Outside(old(mem), old(free), mem)
        invariant Copied(old(mem), sp, mem, c, i) && KernelPart(c, kmap) && SpaceOk(mem, sp, free)
        invariant UserTables(c, i)
        invariant |free| == |old(free)| - KernelNeed(kmap) - i - TablesFor(i)
        decreases PageUp(sz) - i
      {
        var t; ghost var same;
        PresentBelow(old(mem), mem, sp, old(free), free, PageUp(sz), i);
        t, same := WalkPgdir(d, i, false, sp);
        EntryOf(mem, sp, free, i);
        var pte := mem[t.value].entries[i % ENTRIES];
        ghost var m1, free1, c1 := mem, free, c;
        CopyEndIs(|old(free)|, KernelNeed(kmap), PageUp(sz), i, |free|);
        var f := Kalloc();
        if f.None? {
          TakenAll(c, free1, old(free));
          FreeVm(r.value, c);
          DroppedChild(old(mem), sp, old(free), c, m1, free1, mem, free, iset{});
          return None, c, iset{};
        }
        TakePage(mem, c, free1, mem[pte.frame], i);
        mem := mem[f.value := mem[pte.frame]];
        NextPage(c, i);
        var rc; ghost var k;
        rc, c, k := MapPages(r.value, i * PGSIZE, PGSIZE, f.value * PGSIZE, pte.flags, c);
        CopyOne(old(mem), sp, old(free), m1, c1, free1, mem, c, free, i, k, pte, kmap);
        CopyTables(c1, free1[1..], c, free, i, k);
        if rc < 0 {
          ghost var m2, free2 := mem, free;
          FreeVm(r.value, c);
          DroppedChild(old(mem), sp, old(free), c, m2, free2, mem, free, iset{f.value});
          NotFreed(c, free2, old(free), free, f.value);
          assert f.value in iset{f.value};
          return None, c, iset{f.value};
        }
        i := i + 1;
      }
      TakenIff(c, free, old(free));
      FreeIsApart(mem, c, free);
      CopyEndIs(|old(free)|, KernelNeed(kmap), PageUp(sz), PageUp(sz), |free|);
    }
  }

  // ---------------------------------------------------------------- how many pages are needed

  /** The pages it takes to map `n` pages from `a` on: themselves, and a table for each of their directory slots
      that has none. */
  ghost function AllocNeed(sp: Space, a: nat, n: nat): nat { n + |Slots(a, n) - sp.tables.Keys| }

  ghost predicate HasRoom(sp: Space, free: seq<nat>, oldsz: nat, newsz: nat) {
    || PageUp(newsz) <= PageUp(oldsz)
    || |free| >= AllocNeed(sp, PageUp(oldsz), PageUp(newsz) - PageUp(oldsz))
  }

  /** From `sp` to `sp'` exactly the pages needed for `n` pages from `a` on left the free list. */
  ghost predicate Spent(sp: Space, free: seq<nat>, sp': Space, free': seq<nat>, a: nat, n: nat) {
    Joined(sp.tables.Keys, Slots(a, n), sp'.tables.Keys) && |free'| + AllocNeed(sp, a, n) == |free|
  }

  lemma OneMore(slots: set<nat>, x: nat, keys: set<nat>)
    ensures |slots + {x} - keys| == |slots - keys| + if x in keys + slots then 0 else 1
  {
    if x in keys + slots {
      assert slots + {x} - keys == slots - keys;
    } else {
      assert slots + {x} - keys == (slots - keys) + {x};
    }
  }

  lemma NeedStep(sp: Space, a: nat, n: nat)
    ensures AllocNeed(sp, a, n + 1) ==
            AllocNeed(sp, a, n) + if Pdx(a + n) in sp.tables.Keys + Slots(a, n) then 1 else 2
  {
    hide Slots, Pdx;
    NextSlot(a, n);
    OneMore(Slots(a, n), Pdx(a + n), sp.tables.Keys);
  }

  lemma {:induction false} NeedGrows(sp: Space, a: nat, m: nat, n: nat)
    requires m <= n
    ensures AllocNeed(sp, a, m) + (n - m) <= AllocNeed(sp, a, n)
    decreases n
  {
    hide AllocNeed, Slots, Pdx;
    if m < n {
      NeedGrows(sp, a, m, n - 1);
      NeedStep(sp, a, n - 1);
    }
  }

  lemma SpentNone(sp: Space, free: seq<nat>, oldsz: nat, newsz: nat)
    ensures Spent(sp, free, sp, free, PageUp(oldsz), 0)
  {
    assert Slots(PageUp(oldsz), 0) == {};
  }

  /** The free list is empty before page `v`. */
  lemma SpentShort(sp: Space, free: seq<nat>, sp1: Space, free1: seq<nat>, oldsz: nat, newsz: nat, v: nat)
    requires PageUp(oldsz) <= v < PageUp(newsz)
    requires Spent(sp, free, sp1, free1, PageUp(oldsz), v - PageUp(oldsz)) && free1 == []
    ensures !HasRoom(sp, free, oldsz, newsz)
  {
    hide Slots, PageUp, AllocNeed, Joined;
    NeedGrows(sp, PageUp(oldsz), v - PageUp(oldsz), PageUp(newsz) - PageUp(oldsz));
  }

  /** Page `v` and the table it may need; or the table is what is missing. */
  lemma SpentStep(sp: Space, free: seq<nat>, sp1: Space, free1: seq<nat>, sp2: Space, free2: seq<nat>, oldsz: nat,
                  newsz: nat, v: nat, k: nat)
    requires PageUp(oldsz) <= v < PageUp(newsz) && k <= 1 && free1 != []
    requires Spent(sp, free, sp1, free1, PageUp(oldsz), v - PageUp(oldsz)) && Tabled(sp1, free1[1..], sp2, free2, v, k)
    ensures k == 1 ==> Spent(sp, free, sp2, free2, PageUp(oldsz), v + 1 - PageUp(oldsz))
    ensures k == 0 && free2 == [] && Pdx(v) !in sp2.tables ==> !HasRoom(sp, free, oldsz, newsz)
  {
    hide PageUp, AllocNeed, Slots, Pdx, Tabled, Joined;
    var a, m := PageUp(oldsz), v - PageUp(oldsz);
    NeedStep(sp, a, m);
    NeedGrows(sp, a, m + 1, PageUp(newsz) - a);
    TabledOne(sp1, free1[1..], sp2, free2, v, k);
    KeysAfter(sp, sp1, sp2, a, m, k);
  }

  lemma TabledOne(sp1: Space, free1: seq<nat>, sp2: Space, free2: seq<nat>, v: nat, k: nat)
    requires k <= 1 && Tabled(sp1, free1, sp2, free2, v, k)
    ensures k == 1 ==> sp2.tables.Keys == sp1.tables.Keys + {Pdx(v)}
                       && |free2| == |free1| - if Pdx(v) in sp1.tables then 0 else 1
    ensures k == 0 ==> sp2.tables.Keys == sp1.tables.Keys && |free2| == |free1|
  {
    OneSlot(v);
    NoSlot(v);
    hide Slots, Pdx;
    if k == 1 {
      OneMore(sp1.tables.Keys, Pdx(v), {});
      assert sp1.tables.Keys + {Pdx(v)} - {} == sp1.tables.Keys + {Pdx(v)} && sp1.tables.Keys - {} == sp1.tables.Keys;
    }
  }

  lemma KeysAfter(sp: Space, sp1: Space, sp2: Space, a: nat, m: nat, k: nat)
    requires Joined(sp.tables.Keys, Slots(a, m), sp1.tables.Keys)
    requires k == 1 ==> sp2.tables.Keys == sp1.tables.Keys + {Pdx(a + m)}
    ensures Pdx(a + m) in sp1.tables <==> Pdx(a + m) in sp.tables.Keys + Slots(a, m)
    ensures k == 1 ==> Joined(sp.tables.Keys, Slots(a, m + 1), sp2.tables.Keys)
  {
    NextSlot(a, m);
    hide Slots, Pdx;
  }

  lemma UpIs(oldsz: nat, newsz: nat)
    ensures PageUp(oldsz) == (oldsz + PGSIZE - 1) / PGSIZE && (oldsz <= newsz ==> PageUp(oldsz) <= PageUp(newsz))
    ensures newsz < USER * PGSIZE ==> PageUp(newsz) <= USER
  {
  }

  lemma BelowUp(v: nat, sz: nat)
    ensures v * PGSIZE < sz <==> v < PageUp(sz)
  {
  }

  lemma NoSlot(v: nat)
    ensures Slots(v, 0) == {}
  {
  }

  lemma SpentAll(sp: Space, free: seq<nat>, sp1: Space, free1: seq<nat>, oldsz: nat, newsz: nat, v: nat)
    requires v == PageUp(newsz) >= PageUp(oldsz)
    requires Spent(sp, free, sp1, free1, PageUp(oldsz), v - PageUp(oldsz))
    ensures HasRoom(sp, free, oldsz, newsz)
  {
  }

  /** The directory slots the first `n` kernel mappings touch. */
  ghost function KernelSlots(kmap: seq<KMap>, n: nat): set<nat>
    requires KmapOk(kmap) && n <= |kmap|
  {
    if n == 0 then {}
    else KernelSlots(kmap, n - 1) + Slots(First(kmap[n - 1].va), Count(kmap[n - 1].va, kmap[n - 1].size))
  }

  /** The pages a new space takes before it has user pages. */
  ghost function KernelNeed(kmap: seq<KMap>): nat
    requires KmapOk(kmap)
  {
    1 + |KernelSlots(kmap, |kmap|)|
  }

  /** The page tables `n` user pages need. */
  function TablesFor(n: nat): nat { (n + ENTRIES - 1) / ENTRIES }

  /** How copyuvm ends with `free` free pages, of which the kernel part takes `kernel`, for `n` user pages.
      Page i is taken before the table it may need, so a table is what is missing when the rest of the free
      list is used up right after the first page of a table. */
  function CopyEnd(free: nat, kernel: nat, n: nat): CopyExit {
    if free < kernel then NoDirectory
    else if free - kernel >= n + TablesFor(n) then Done
    else if (free - kernel) % (ENTRIES + 1) == 1 then NoTable
    else NoPage
  }

  lemma CopyEndIs(free: nat, kernel: nat, n: nat, i: nat, left: nat)
    requires i <= n
    ensures free < kernel <==> CopyEnd(free, kernel, n) == NoDirectory
    ensures free >= kernel && left == free - kernel - i - TablesFor(i) ==>
              && (i == n ==> CopyEnd(free, kernel, n) == Done)
              && (i < n && left == 0 ==> CopyEnd(free, kernel, n) == NoPage)
              && (i < n && left == 1 && i % ENTRIES == 0 ==> CopyEnd(free, kernel, n) == NoTable)
  {
    if free >= kernel && left == free - kernel - i - TablesFor(i) && i < n {
      var q, s := i / ENTRIES, i % ENTRIES;
      assert i == q * ENTRIES + s && TablesFor(i) == q + if s > 0 then 1 else 0;
      TablesMore(i, n);
      if left <= 1 && (left == 1 ==> s == 0) {
        Remainder(q, s + left + if s > 0 then 1 else 0);
      }
    }
  }

  lemma TablesMore(i: nat, n: nat)
    requires i < n
    ensures TablesFor(i) <= TablesFor(i + 1) <= TablesFor(n)
    ensures TablesFor(i + 1) == TablesFor(i) + if i % ENTRIES == 0 then 1 else 0
  {
  }

  lemma Remainder(q: nat, s: nat)
    requires s <= ENTRIES
    ensures (q * (ENTRIES + 1) + s) % (ENTRIES + 1) == s
  {
  }

  lemma {:induction false} SlotIn(a: nat, n: nat, v: nat)
    requires a <= v < a + n
    ensures Pdx(v) in Slots(a, n)
    decreases n
  {
    if v < a + n - 1 {
      SlotIn(a, n - 1, v);
    }
  }

  lemma NoSlots(kmap: seq<KMap>)
    requires KmapOk(kmap)
    ensures KernelSlots(kmap, 0) == {}
  {
  }

  lemma NextSlots(kmap: seq<KMap>, i: nat)
    requires KmapOk(kmap) && i < |kmap|
    ensures KernelSlots(kmap, i + 1) == KernelSlots(kmap, i) + Slots(First(kmap[i].va), Count(kmap[i].va, kmap[i].size))
  {
  }

  lemma {:induction false} SlotsGrow(kmap: seq<KMap>, i: nat, n: nat)
    requires KmapOk(kmap) && i <= n <= |kmap|
    ensures KernelSlots(kmap, i) <= KernelSlots(kmap, n)
    decreases n
  {
    if i < n {
      SlotsGrow(kmap, i, n - 1);
    }
  }

  lemma {:induction false} SlotsPrefix(a: nat, k: nat, n: nat)
    requires k <= n
    ensures Slots(a, k) <= Slots(a, n)
    decreases n
  {
    if k < n {
      SlotsPrefix(a, k, n - 1);
    }
  }

  /** A kernel mapping: done, it adds its slots; stopped for want of a page, it leaves fewer tables than the
      mappings need. */
  lemma TabledKernel(kmap: seq<KMap>, i: nat, k: nat, sp1: Space, free1: seq<nat>, sp2: Space, free2: seq<nat>)
    requires KmapOk(kmap) && i < |kmap| && k <= Count(kmap[i].va, kmap[i].size)
    requires sp1.tables.Keys == KernelSlots(kmap, i) && Tabled(sp1, free1, sp2, free2, First(kmap[i].va), k)
    ensures k == Count(kmap[i].va, kmap[i].size) ==>
              && sp2.tables.Keys == KernelSlots(kmap, i + 1)
              && |free2| + |KernelSlots(kmap, i + 1)| == |free1| + |KernelSlots(kmap, i)|
    ensures k < Count(kmap[i].va, kmap[i].size) && free2 == [] && Pdx(First(kmap[i].va) + k) !in sp2.tables ==>
              |free1| + |KernelSlots(kmap, i)| < |KernelSlots(kmap, |kmap|)|
  {
    hide KernelSlots, Slots;
    NextSlots(kmap, i);
    if k < Count(kmap[i].va, kmap[i].size) && Pdx(First(kmap[i].va) + k) !in sp2.tables {
      MissingSlot(kmap, i, k, sp2.tables.Keys);
    }
  }

  /** A mapping that stopped at a slot without a table leaves fewer tables than the mappings need. */
  lemma MissingSlot(kmap: seq<KMap>, i: nat, k: nat, keys: set<nat>)
    requires KmapOk(kmap) && i < |kmap| && k < Count(kmap[i].va, kmap[i].size)
    requires keys == KernelSlots(kmap, i) + Slots(First(kmap[i].va), k) && Pdx(First(kmap[i].va) + k) !in keys
    ensures |keys| < |KernelSlots(kmap, |kmap|)|
  {
    hide KernelSlots, Slots;
    var a, n := First(kmap[i].va), Count(kmap[i].va, kmap[i].size);
    var all := KernelSlots(kmap, |kmap|);
    NextSlots(kmap, i);
    SlotsGrow(kmap, i + 1, |kmap|);
    SlotsPrefix(a, k, n);
    SlotIn(a, n, a + k);
    assert keys <= all - {Pdx(a + k)};
    Fewer(keys, all - {Pdx(a + k)});
  }

  lemma {:induction false} Fewer(a: set<nat>, b: set<nat>)
    requires a <= b
    ensures |a| <= |b|
    decreases a
  {
    if a != {} {
      var x :| x in a;
      Fewer(a - {x}, b - {x});
    }
  }

  lemma {:induction false} SlotsAbove(a: nat, n: nat, k: nat)
    requires a >= USER && k in Slots(a, n)
    ensures k >= USER / ENTRIES
    decreases n
  {
    if k in Slots(a, n - 1) {
      SlotsAbove(a, n - 1, k);
    }
  }

  /** The kernel's slots are not the user's. */
  lemma KernelIsApart(kmap: seq<KMap>)
    requires KmapOk(kmap)
    ensures forall k :: k in KernelSlots(kmap, |kmap|) ==> k >= USER / ENTRIES
  {
    forall k | k in KernelSlots(kmap, |kmap|) ensures k >= USER / ENTRIES {
      KernelSlotAbove(kmap, |kmap|, k);
    }
  }

  lemma {:induction false} KernelSlotAbove(kmap: seq<KMap>, n: nat, k: nat)
    requires KmapOk(kmap) && n <= |kmap| && k in KernelSlots(kmap, n)
    ensures k >= USER / ENTRIES
    decreases n
  {
    if k in KernelSlots(kmap, n - 1) {
      KernelSlotAbove(kmap, n - 1, k);
    } else {
      SlotsAbove(First(kmap[n - 1].va), Count(kmap[n - 1].va, kmap[n - 1].size), k);
    }
  }

  /** The user's page tables are exactly those of the first `n` pages. */
  ghost predicate UserTables(c: Space, n: nat) {
    forall j :: 0 <= j < USER / ENTRIES ==> (j in c.tables <==> j < TablesFor(n))
  }

  lemma NoUserTables(kmap: seq<KMap>, c: Space)
    requires KmapOk(kmap) && c.tables.Keys == KernelSlots(kmap, |kmap|)
    ensures UserTables(c, 0) && TablesFor(0) == 0
  {
    KernelIsApart(kmap);
  }

  /** The tables of the child after page `i`. */
  lemma CopyTables(c1: Space, free1: seq<nat>, c2: Space, free2: seq<nat>, i: nat, k: nat)
    requires i < USER && k <= 1 && Tabled(c1, free1, c2, free2, i, k) && UserTables(c1, i)
    ensures Pdx(i) in c1.tables <==> i % ENTRIES != 0
    ensures k == 1 ==> UserTables(c2, i + 1) && |free2| + TablesFor(i + 1) == |free1| + TablesFor(i)
    ensures k == 0 ==> c2.tables.Keys == c1.tables.Keys && |free2| == |free1|
  {
    TablesMore(i, i + 1);
    InSlot(i);
    if k == 1 {
      OneSlot(i);
      if Pdx(i) in c1.tables {
        assert c2.tables.Keys == c1.tables.Keys;
      } else {
        assert |c1.tables.Keys + {Pdx(i)}| == |c1.tables.Keys| + 1;
      }
      forall j | 0 <= j < USER / ENTRIES ensures j in c2.tables <==> j < TablesFor(i + 1) {
        assert j in c2.tables <==> j in c1.tables || j == Pdx(i);
      }
    }
  }

  lemma InSlot(i: nat)
    requires i < USER
    ensures Pdx(i) < USER / ENTRIES && (Pdx(i) < TablesFor(i) <==> i % ENTRIES != 0) && TablesFor(i + 1) == Pdx(i) + 1
  {
  }

  lemma NotFreed(c: Space, free1: seq<nat>, free0: seq<nat>, free: seq<nat>, f: nat)
    requires TakenExcept(c, free1, free0, iset{f}) && forall g :: g in free <==> g in free1 || Owns(c, g)
    ensures f !in free
  {
    hide Owns;
  }

  lemma FreeIsApart(mem: Memory, c: Space, free: seq<nat>)
    requires SpaceOk(mem, c, free)
    ensures forall f :: f in free ==> !Owns(c, f)
  {
  }

  lemma OnePageMore(kernel: nat, n: nat)
    requires n > 0
    ensures CopyEnd(kernel + 1, kernel, n) == NoTable
  {
  }

  /** Another: with one page more than the kernel part takes, copyuvm takes it for the first user page, has
      none for its table, and that one page is gone. */
  method OnePageMoreIsLost(vm: Vm, d: nat, sz: nat, kmap: seq<KMap>, ghost sp: Space)
    requires SpaceOk(vm.mem, sp, vm.free) && d == sp.dir && UserPrefix(sp, PageUp(sz)) && KmapOk(kmap)
    requires PageUp(sz) > 0 && |vm.free| == KernelNeed(kmap) + 1
    modifies vm
    ensures exists f :: f in old(vm.free) && f !in vm.free && forall g :: g in old(vm.free) && g != f ==> g in vm.free
  {
    hide SpaceOk, UserPrefix, Copied, KernelPart, Outside, Owns, KernelNeed, CopyEnd;
    OnePageMore(KernelNeed(kmap), PageUp(sz));
    var r; ghost var c, lost;
    r, c, lost := vm.CopyUvm(d, sz, kmap, sp);
    ghost var f :| lost == iset{f};
    assert f in lost;
  }

  /** A witness: with one free page setupkvm fails and the page is gone. */
  method OnlyPageIsLost(vm: Vm, kmap: seq<KMap>, f: nat)
    requires KmapOk(kmap) && kmap != [] && vm.free == [f] && f in vm.mem
    modifies vm
    ensures vm.free == []
  {
    var r; ghost var sp, lost;
    SomeSlot(kmap);
    r, sp, lost := vm.SetupKvm(kmap);
    assert r.None? && lost == iset{f};
  }

  lemma SomeSlot(kmap: seq<KMap>)
    requires KmapOk(kmap) && kmap != []
    ensures KernelNeed(kmap) >= 2
  {
    var k := kmap[0];
    SlotIn(First(k.va), Count(k.va, k.size), First(k.va));
    NextSlots(kmap, 0);
    SlotsGrow(kmap, 1, |kmap|);
    assert Pdx(First(k.va)) in KernelSlots(kmap, |kmap|);
    Fewer({Pdx(First(k.va))}, KernelSlots(kmap, |kmap|));
  }

  datatype KMap = KMap(va: nat, size: nat, pa: nat, perm: nat)

  datatype CopyExit = Done | NoDirectory | NoPage | NoTable

  /** The kernel's mappings: above KERNBASE, inside the address space, in order, not overlapping. */
  ghost predicate KmapOk(kmap: seq<KMap>) {
    && (forall i :: 0 <= i < |kmap| ==>
          && kmap[i].size >= 1 && kmap[i].va >= USER * PGSIZE
          && kmap[i].va + kmap[i].size <= VPAGES * PGSIZE)
    && (forall i, j :: 0 <= i < j < |kmap| ==> Last(kmap[i].va, kmap[i].size) < First(kmap[j].va))
  }

  ghost function KernelPages(kmap: seq<KMap>, n: nat): map<nat, Pte>
    requires KmapOk(kmap) && n <= |kmap|
  {
    if n == 0 then map[]
    else
      var k := kmap[n - 1];
      MapN(KernelPages(kmap, n - 1), First(k.va), Count(k.va, k.size), k.pa / PGSIZE, k.perm)
  }

  /** The space and the free list together are exactly what the free list was. */
  ghost predicate TakenFrom(sp: Space, free': seq<nat>, free: seq<nat>) {
    forall f :: Owns(sp, f) || f in free' <==> f in free
  }

  /** Pages that were not free are untouched. */
  ghost predicate Outside(mem: Memory, free: seq<nat>, mem': Memory) {
    mem'.Keys == mem.Keys && forall f :: f in mem && f !in free ==> mem'[f] == mem[f]
  }

  /** Page `v` of the child has the flags and the contents of the parent's, on its own frame. */
  ghost predicate CopyOf(m0: Memory, sp: Space, mem: Memory, c: Space, v: nat) {
    && v in sp.pages && sp.pages[v].Present? && v in c.pages && c.pages[v].Present?
    && c.pages[v].flags == sp.pages[v].flags
    && sp.pages[v].frame in m0 && c.pages[v].frame in mem
    && mem[c.pages[v].frame] == m0[sp.pages[v].frame]
  }

  ghost predicate Copied(m0: Memory, sp: Space, mem: Memory, c: Space, n: nat) {
    forall v :: 0 <= v < n ==> CopyOf(m0, sp, mem, c, v)
  }

  ghost predicate KernelPart(c: Space, kmap: seq<KMap>)
    requires KmapOk(kmap)
  {
    forall v :: v >= USER ==> PteOf(c.pages, v) == PteOf(KernelPages(kmap, |kmap|), v)
  }

  lemma OutsideSame(mem: Memory, free: seq<nat>)
    ensures Outside(mem, free, mem) && Sub(free, free)
  {
  }

  lemma FreePages(mem: Memory, sp: Space, free: seq<nat>)
    requires SpaceOk(mem, sp, free)
    ensures NoDup(free) && forall f :: f in free ==> f in mem
  {
  }

  /** A cleared page is a directory of an empty space. */
  lemma FreshSpace(mem: Memory, free: seq<nat>, kmap: seq<KMap>)
    requires NoDup(free) && free != [] && (forall f :: f in free ==> f in mem) && KmapOk(kmap)
    ensures var sp := Space(free[0], map[], map[]);
            var m := mem[free[0] := Table(EmptyTable())];
            && SpaceOk(m, sp, free[1..]) && TakenFrom(sp, free[1..], free)
            && Outside(mem, free, m) && Sub(free[1..], free) && sp.pages == KernelPages(kmap, 0)
  {
    var sp := Space(free[0], map[], map[]);
    assert free[0] in free;
    NoDupTail(free);
    assert forall f :: Owns(sp, f) <==> f == free[0];
    forall i | 0 <= i < |free[1..]| ensures free[1..][i] in mem { assert free[1..][i] in free; }
  }

  lemma TakenIff(c: Space, free': seq<nat>, free: seq<nat>)
    requires TakenFrom(c, free', free)
    ensures forall f :: f in free <==> f in free' || Owns(c, f)
  {
    hide Owns;
  }

  lemma {:induction false} KernelPagesAbove(kmap: seq<KMap>, n: nat, v: nat)
    requires KmapOk(kmap) && n <= |kmap| && v in KernelPages(kmap, n)
    ensures v >= USER && exists i :: 0 <= i < n && First(kmap[i].va) <= v <= Last(kmap[i].va, kmap[i].size)
  {
    if n > 0 {
      var k := kmap[n - 1];
      MapNAt(KernelPages(kmap, n - 1), First(k.va), Count(k.va, k.size), k.pa / PGSIZE, k.perm, v);
      if v in KernelPages(kmap, n - 1) { KernelPagesAbove(kmap, n - 1, v); }
    }
  }

  /** The space under construction has the first `i` kernel mappings, everything it holds came from the
      free list, and the free list is shorter by the directory and one table for each slot touched. */
  ghost predicate KernelUpTo(kmap: seq<KMap>, i: nat, m0: Memory, free0: seq<nat>, mem: Memory, sp: Space,
                             free: seq<nat>)
    requires KmapOk(kmap) && i <= |kmap|
  {
    && SpaceOk(mem, sp, free) && NoDup(free)
    && sp.pages == KernelPages(kmap, i) && sp.tables.Keys == KernelSlots(kmap, i)
    && TakenFrom(sp, free, free0) && Outside(m0, free0, mem) && Sub(free, free0)
    && |free| + 1 + |KernelSlots(kmap, i)| == |free0|
  }

  lemma NeedPositive(kmap: seq<KMap>)
    requires KmapOk(kmap)
    ensures KernelNeed(kmap) >= 1
  {
  }

  lemma KernelStart(m0: Memory, free0: seq<nat>, kmap: seq<KMap>)
    requires NoDup(free0) && free0 != [] && (forall f :: f in free0 ==> f in m0) && KmapOk(kmap)
    ensures KernelUpTo(kmap, 0, m0, free0, m0[free0[0] := Table(EmptyTable())], Space(free0[0], map[], map[]),
                       free0[1..])
  {
    hide SpaceOk, NoDup, TakenFrom, Outside, Sub, KernelPages, KernelSlots;
    FreshSpace(m0, free0, kmap);
    FreePages(m0[free0[0] := Table(EmptyTable())], Space(free0[0], map[], map[]), free0[1..]);
    NoSlots(kmap);
  }

  lemma KernelEnd(kmap: seq<KMap>, m0: Memory, free0: seq<nat>, mem: Memory, sp: Space, free: seq<nat>)
    requires KmapOk(kmap) && KernelUpTo(kmap, |kmap|, m0, free0, mem, sp, free)
    ensures SpaceOk(mem, sp, free) && sp.pages == KernelPages(kmap, |kmap|)
    ensures TakenFrom(sp, free, free0) && sp.tables.Keys == KernelSlots(kmap, |kmap|)
    ensures |free| == |free0| - KernelNeed(kmap)
    ensures NoDup(free) && Outside(m0, free0, mem) && Sub(free, free0)
  {
    hide SpaceOk, NoDup, TakenFrom, Outside, Sub, KernelPages, KernelSlots;
  }

  /** Each kernel mapping finds its range unmapped. */
  lemma KernelRoom(kmap: seq<KMap>, i: nat, m0: Memory, free0: seq<nat>, mem: Memory, sp: Space, free: seq<nat>)
    requires KmapOk(kmap) && i < |kmap| && KernelUpTo(kmap, i, m0, free0, mem, sp, free)
    ensures var k := kmap[i];
            && SpaceOk(mem, sp, free) && k.size >= 1 && k.va + k.size <= VPAGES * PGSIZE
            && (forall v :: First(k.va) <= v <= Last(k.va, k.size) ==> v !in sp.pages)
            && Unowned(mem, sp, free, First(k.va), Count(k.va, k.size), k.pa / PGSIZE)
  {
    hide SpaceOk, NoDup, TakenFrom, Outside, Sub, KernelSlots;
    var k := kmap[i];
    forall v: nat | First(k.va) <= v <= Last(k.va, k.size) ensures v !in sp.pages {
      if v in sp.pages { KernelPagesAbove(kmap, i, v); }
    }
  }

  /** One more mapping; a mapping that fails does so because the free list was too short from the start. */
  lemma KernelStep(kmap: seq<KMap>, i: nat, n: nat, m0: Memory, free0: seq<nat>,
                   m1: Memory, sp1: Space, free1: seq<nat>, m2: Memory, sp2: Space, free2: seq<nat>)
    requires KmapOk(kmap) && i < |kmap| && KernelUpTo(kmap, i, m0, free0, m1, sp1, free1)
    requires SpaceOk(m2, sp2, free2) && n <= Count(kmap[i].va, kmap[i].size)
    requires sp2.pages == MapN(sp1.pages, First(kmap[i].va), n, kmap[i].pa / PGSIZE, kmap[i].perm)
    requires TablesConserved(sp1, free1, sp2, free2) && TablesOnly(m1, sp1, free1, m2)
    requires Tabled(sp1, free1, sp2, free2, First(kmap[i].va), n)
    ensures NoDup(free2) && Outside(m0, free0, m2) && Sub(free2, free0)
    ensures n == Count(kmap[i].va, kmap[i].size) ==> KernelUpTo(kmap, i + 1, m0, free0, m2, sp2, free2)
    ensures n < Count(kmap[i].va, kmap[i].size) && free2 == [] && Pdx(First(kmap[i].va) + n) !in sp2.tables ==>
              0 < |free0| < KernelNeed(kmap)
  {
    hide SpaceOk, NoDup, TakenFrom, Outside, Sub, KernelPages, KernelSlots, TablesConserved, TablesOnly, MapN, Tabled;
    KernelMapped(kmap, i, n, m0, free0, m1, sp1, free1, m2, sp2, free2);
    FreePages(m2, sp2, free2);
    TabledKernel(kmap, i, n, sp1, free1, sp2, free2);
  }

  lemma KernelMapped(kmap: seq<KMap>, i: nat, n: nat, m0: Memory, free0: seq<nat>,
                   m1: Memory, sp1: Space, free1: seq<nat>, m2: Memory, sp2: Space, free2: seq<nat>)
    requires KmapOk(kmap) && i < |kmap| && sp1.pages == KernelPages(kmap, i)
    requires TablesConserved(sp1, free1, sp2, free2) && TablesOnly(m1, sp1, free1, m2)
    requires n <= Count(kmap[i].va, kmap[i].size)
    requires sp2.pages == MapN(sp1.pages, First(kmap[i].va), n, kmap[i].pa / PGSIZE, kmap[i].perm)
    requires TakenFrom(sp1, free1, free0) && Outside(m0, free0, m1) && Sub(free1, free0)
    ensures TakenFrom(sp2, free2, free0) && Outside(m0, free0, m2) && Sub(free2, free0)
    ensures n == Count(kmap[i].va, kmap[i].size) ==> sp2.pages == KernelPages(kmap, i + 1)
  {
    var k := kmap[i];
    forall g ensures OwnsPage(sp2, g) <==> OwnsPage(sp1, g) {
      if OwnsPage(sp2, g) {
        var v :| UserAt(sp2, v, g);
        MapNAt(sp1.pages, First(k.va), n, k.pa / PGSIZE, k.perm, v);
        assert UserAt(sp1, v, g);
      }
      if OwnsPage(sp1, g) {
        var v :| UserAt(sp1, v, g);
        MapNAt(sp1.pages, First(k.va), n, k.pa / PGSIZE, k.perm, v);
        assert UserAt(sp2, v, g);
      }
    }
    hide OwnsPage, OwnsTable, MapN, KernelPages;
    assert forall f :: f == sp1.dir || OwnsTable(sp1, f) || f in free1 ==> Owns(sp1, f) || f in free1;
  }

  /** The parent is not affected by work on pages that were free. */
  lemma ParentStays(m0: Memory, sp: Space, free0: seq<nat>, mem: Memory, free: seq<nat>)
    requires SpaceOk(m0, sp, free0) && Outside(m0, free0, mem) && Sub(free, free0) && NoDup(free)
    ensures SpaceOk(mem, sp, free)
  {
    forall f | f == sp.dir || OwnsTable(sp, f) ensures Owns(sp, f) && f in m0 && f !in free0 {}
    RepFrame(m0, mem, sp);
    hide Rep, OneRole, Owns, NoDup;
    forall i | 0 <= i < |free| ensures free[i] in mem {
      assert free[i] in free0;
      var k :| 0 <= k < |free0| && free0[k] == free[i];
    }
  }

  lemma CopyStart(m0: Memory, sp: Space, mem: Memory, c: Space, kmap: seq<KMap>)
    requires KmapOk(kmap) && c.pages == KernelPages(kmap, |kmap|)
    ensures Copied(m0, sp, mem, c, 0) && UserPrefix(c, 0) && KernelPart(c, kmap)
  {
    forall v: nat ensures v in c.pages ==> v >= USER {
      if v in c.pages { KernelPagesAbove(kmap, |kmap|, v); }
    }
  }

  lemma PresentBelow(m0: Memory, mem: Memory, sp: Space, free0: seq<nat>, free: seq<nat>, n: nat, i: nat)
    requires SpaceOk(mem, sp, free) && SpaceOk(m0, sp, free0) && UserPrefix(sp, n) && i < n
    requires Outside(m0, free0, mem)
    ensures i < USER && i in sp.pages && Pdx(i) in sp.tables && sp.pages[i].Present?
    ensures sp.pages[i].frame in mem && sp.pages[i].frame in m0
    ensures mem[sp.pages[i].frame] == m0[sp.pages[i].frame]
  {
    assert UserAt(sp, i, sp.pages[i].frame);
    assert Owns(sp, sp.pages[i].frame);
  }

  /** The child and the free list are the old free list less the lost pages. */
  ghost predicate TakenExcept(c: Space, free: seq<nat>, free0: seq<nat>, lost: iset<nat>) {
    forall f :: Owns(c, f) || f in free <==> f in free0 && f !in lost
  }

  lemma TakenAll(c: Space, free: seq<nat>, free0: seq<nat>)
    requires TakenFrom(c, free, free0)
    ensures TakenExcept(c, free, free0, iset{})
  {
    hide Owns;
  }

  /** freevm of the unfinished child. */
  lemma DroppedChild(m0: Memory, sp: Space, free0: seq<nat>, c: Space, m1: Memory, free1: seq<nat>,
                     mem: Memory, free: seq<nat>, lost: iset<nat>)
    requires SpaceOk(m0, sp, free0) && Outside(m0, free0, m1) && TakenExcept(c, free1, free0, lost)
    requires forall f :: f in lost ==> f in free0
    requires NoDup(free) && (forall f :: f in free <==> f in free1 || Owns(c, f))
    requires Untouched(m1, c, free1, mem)
    ensures Outside(m0, free0, mem) && SpaceOk(mem, sp, free)
    ensures forall f :: f in free0 <==> f in free || f in lost
  {
    hide Owns, NoDup, SpaceOk;
    assert Outside(m0, free0, mem);
    assert Sub(free, free0);
    ParentStays(m0, sp, free0, mem, free);
  }

  lemma CopyOne(m0: Memory, sp: Space, free0: seq<nat>, m1: Memory, c1: Space, free1: seq<nat>,
                m2: Memory, c2: Space, free2: seq<nat>, i: nat, k: nat, pte: Pte, kmap: seq<KMap>)
    requires SpaceOk(m0, sp, free0) && SpaceOk(m1, c1, free1) && SpaceOk(m2, c2, free2)
    requires KmapOk(kmap) && KernelPart(c1, kmap) && UserPrefix(c1, i) && i < USER && k <= 1
    requires Copied(m0, sp, m1, c1, i) && TakenFrom(c1, free1, free0) && Outside(m0, free0, m1)
    requires free1 != [] && free1[0] in m1 && pte.Present? && pte.frame in m1 && pte.frame in m0
    requires i in sp.pages && sp.pages[i] == pte && m1[pte.frame] == m0[pte.frame]
    requires TablesConserved(c1, free1[1..], c2, free2)
    requires TablesOnly(m1[free1[0] := m1[pte.frame]], c1, free1[1..], m2)
    requires c2.pages == MapN(c1.pages, i, k, free1[0], pte.flags)
    ensures Outside(m0, free0, m2) && SpaceOk(m2, sp, free2) && free1[0] in free0
    ensures k == 1 ==> UserPrefix(c2, i + 1) && Copied(m0, sp, m2, c2, i + 1) && KernelPart(c2, kmap)
    ensures k == 1 ==> TakenFrom(c2, free2, free0)
    ensures k == 0 ==> TakenExcept(c2, free2, free0, iset{free1[0]})
  {
    hide Rep, OneRole;
    var f := free1[0];
    assert f in free1;
    NoDupTail(free1);
    MapKeeps(m1, c1, free1, m1[pte.frame], m2);
    assert i !in c1.pages;
    MapConserves(c1, free1, c2, free2, i, k, pte.flags);
    CopyOutside(m0, free0, m1, c1, free1, m1[pte.frame], m2);
    CopySub(c1, free1, free0, free2);
    ParentStays(m0, sp, free0, m2, free2);
    CopyTaken(c1, free1, c2, free2, free0, k);
    CopyPages(m0, sp, m1, c1, m2, c2, i, k, f, pte, kmap);
  }

  lemma CopyOutside(m0: Memory, free0: seq<nat>, m1: Memory, c1: Space, free1: seq<nat>, p: Page, m2: Memory)
    requires TakenFrom(c1, free1, free0) && Outside(m0, free0, m1) && free1 != [] && free1[0] in m1
    requires TablesOnly(m1[free1[0] := p], c1, free1[1..], m2)
    ensures Outside(m0, free0, m2)
  {
    assert free1[0] in free1;
    forall g | g in m0 && g !in free0 ensures g in m2 && m2[g] == m0[g] {
      assert !Owns(c1, g) && g !in free1;
      assert g !in free1[1..];
    }
  }

  lemma CopySub(c1: Space, free1: seq<nat>, free0: seq<nat>, free2: seq<nat>)
    requires TakenFrom(c1, free1, free0) && Sub(free2, free1)
    ensures Sub(free2, free0)
  {
    hide Owns;
  }

  lemma CopyTaken(c1: Space, free1: seq<nat>, c2: Space, free2: seq<nat>, free0: seq<nat>, k: nat)
    requires TakenFrom(c1, free1, free0) && k <= 1 && free1 != [] && NoDup(free1)
    requires forall g :: g in free1 ==> !Owns(c1, g)
    requires Conserved(c1, if k == 1 then free1 else free1[1..], c2, free2)
    ensures k == 1 ==> TakenFrom(c2, free2, free0)
    ensures k == 0 ==> TakenExcept(c2, free2, free0, iset{free1[0]})
    ensures free1[0] in free0
  {
    NoDupTail(free1);
    assert free1[0] in free1;
    hide Owns, NoDup;
  }

  lemma CopyPages(m0: Memory, sp: Space, m1: Memory, c1: Space, m2: Memory, c2: Space, i: nat, k: nat,
                  f: nat, pte: Pte, kmap: seq<KMap>)
    requires KmapOk(kmap) && KernelPart(c1, kmap) && UserPrefix(c1, i) && i < USER && k <= 1
    requires Copied(m0, sp, m1, c1, i) && SamePages(m1, c1, m2)
    requires i in sp.pages && sp.pages[i] == pte && pte.Present? && pte.frame in m0
    requires f in m2 && m2[f] == m0[pte.frame] && c2.pages == MapN(c1.pages, i, k, f, pte.flags)
    ensures k == 1 ==> UserPrefix(c2, i + 1) && Copied(m0, sp, m2, c2, i + 1) && KernelPart(c2, kmap)
  {
    if k == 1 {
      assert c2.pages == MapN(c1.pages, i, 0, f, pte.flags)[i := Present(f, pte.flags)];
      forall v | 0 <= v < i + 1 ensures CopyOf(m0, sp, m2, c2, v) {
        if v < i {
          assert CopyOf(m0, sp, m1, c1, v);
          assert UserAt(c1, v, c1.pages[v].frame);
        }
      }
      hide KernelPages;
    }
  }

  // ---------------------------------------------------------------- isolation

  /** Two spaces that own no page in common. */
  ghost predicate Apart(a: Space, b: Space) { forall f :: !(Owns(a, f) && Owns(b, f)) }

  /** A parent and the child copyuvm makes share nothing. */
  lemma CopyIsApart(m0: Memory, sp: Space, free0: seq<nat>, c: Space)
    requires SpaceOk(m0, sp, free0) && (forall f :: Owns(c, f) ==> f in free0)
    ensures Apart(sp, c)
  {
    hide Owns, Rep, OneRole;
  }

  /** A store through one space is invisible in the other: its translation and the contents of all
      its pages stay. */
  lemma StoreIsInvisible(mem: Memory, a: Space, b: Space, v: nat, data: seq<int>)
    requires Rep(mem, b) && Apart(a, b) && v in a.pages && v < USER && a.pages[v].Present?
    ensures var m := mem[a.pages[v].frame := Bytes(data)];
            && Rep(m, b)
            && (forall w, g :: UserAt(b, w, g) && g in mem ==> m[g] == mem[g])
            && (forall w :: 0 <= w < VPAGES ==> Walk(m, b.dir, w) == Walk(mem, b.dir, w))
  {
    var f := a.pages[v].frame;
    assert UserAt(a, v, f);
    assert Owns(a, f) && !Owns(b, f);
    var m := mem[f := Bytes(data)];
    RepFrame(mem, m, b);
    forall w, g | UserAt(b, w, g) ensures Owns(b, g) {}
    forall w | 0 <= w < VPAGES ensures Walk(m, b.dir, w) == Walk(mem, b.dir, w) {
      WalkIsPages(mem, b, w);
      WalkIsPages(m, b, w);
    }
  }

  /** Page table `f` hangs in one of the first `i` directory slots. */
  ghost predicate FreedTable(sp: Space, i: nat, f: nat) { exists k: nat :: k < i && TableAt(sp, k, f) }

  /** freevm's loop after `i` slots: the directory is intact and the tables of those slots are on
      the free list. */
  ghost predicate FreeingTables(m1: Memory, sp: Space, free1: seq<nat>, mem: Memory, free: seq<nat>, i: nat) {
    && sp.dir in m1 && sp.dir in mem && mem[sp.dir] == m1[sp.dir] && DirOk(m1, sp)
    && Untouched(m1, sp, free1, mem)
    && NoDup(free) && (forall f :: f in free <==> f in free1 || FreedTable(sp, i, f))
    && OneRole(sp) && (forall f :: Owns(sp, f) ==> f in m1 && f !in free1)
  }

  lemma NoUserPages(sp: Space, mem: Memory, free: seq<nat>, s1: Space)
    requires SpaceOk(mem, sp, free)
    requires s1 == sp.(pages := Dealloc(sp.tables, sp.pages, PageUp(0), PageUp(USER * PGSIZE)))
    ensures (forall f :: !OwnsPage(s1, f)) && forall i :: i in s1.tables ==> i < ENTRIES
  {
    forall v: nat, f: nat ensures !UserAt(s1, v, f) {
      DeallocAt(sp.tables, sp.pages, 0, USER, v);
      if v in sp.pages && v < USER {
        VisitsAll(sp.tables, 0, USER, v);
      }
    }
  }

  lemma FreeTablesStart(mem: Memory, sp: Space, free: seq<nat>)
    requires SpaceOk(mem, sp, free)
    ensures FreeingTables(mem, sp, free, mem, free, 0)
  {
    assert forall f :: !FreedTable(sp, 0, f);
  }

  lemma FreeTablesStep(m1: Memory, sp: Space, free1: seq<nat>, mem: Memory, free: seq<nat>, i: nat)
    requires FreeingTables(m1, sp, free1, mem, free, i) && i < ENTRIES
    ensures mem[sp.dir].Table? && |mem[sp.dir].entries| == ENTRIES
    ensures var e := mem[sp.dir].entries[i];
            if e.Present? then e.frame in mem && FreeingTables(m1, sp, free1, mem[e.frame := Junk], [e.frame] + free,
                                                               i + 1)
            else FreeingTables(m1, sp, free1, mem, free, i + 1)
  {
    var e := mem[sp.dir].entries[i];
    assert e == PdeOf(sp.tables, i);
    forall f ensures FreedTable(sp, i + 1, f) <==> FreedTable(sp, i, f) || TableAt(sp, i, f) {
      if FreedTable(sp, i, f) { var k: nat :| k < i && TableAt(sp, k, f); assert k < i + 1; }
    }
    if e.Present? {
      var f := e.frame;
      assert TableAt(sp, i, f) && OwnsTable(sp, f) && Owns(sp, f);
      assert forall k: nat :: k < i ==> !TableAt(sp, k, f);
      assert !FreedTable(sp, i, f);
      NoDupCons(f, free);
      hide NoDup, DirOk;
    }
  }

  lemma FreeTablesEnd(sp0: Space, m0: Memory, free0: seq<nat>, m1: Memory, sp: Space, free1: seq<nat>,
                      mem: Memory, free: seq<nat>)
    requires FreeingTables(m1, sp, free1, mem, free, ENTRIES) && (forall f :: !OwnsPage(sp, f))
    requires forall i :: i in sp.tables ==> i < ENTRIES
    requires Conserved(sp0, free0, sp, free1) && Untouched(m0, sp0, free0, m1)
    ensures sp.dir in mem && NoDup([sp.dir] + free)
    ensures forall f :: f in [sp.dir] + free <==> f in free0 || Owns(sp0, f)
    ensures Untouched(m0, sp0, free0, mem[sp.dir := Junk])
  {
    forall f ensures FreedTable(sp, ENTRIES, f) <==> OwnsTable(sp, f) {
      if OwnsTable(sp, f) { var k: nat :| TableAt(sp, k, f); assert k < ENTRIES; }
      if FreedTable(sp, ENTRIES, f) { var k: nat :| k < ENTRIES && TableAt(sp, k, f); }
    }
    assert Owns(sp, sp.dir);
    NoDupCons(sp.dir, free);
    hide NoDup, FreedTable, OwnsTable, OwnsPage;
  }

  /** The mapped user pages are exactly the first `n`. */
  ghost predicate UserPrefix(sp: Space, n: nat) {
    n <= USER && forall v :: 0 <= v < USER ==> (v in sp.pages <==> v < n)
  }

  /** The user pages of `sp` keep their contents. */
  ghost predicate SamePages(mem: Memory, sp: Space, mem': Memory) {
    forall f :: OwnsPage(sp, f) ==> f in mem && f in mem' && mem'[f] == mem[f]
  }

  /** Page `v` of `sp` is a writable user page of zeros on a frame that was free. */
  ghost predicate FreshZero(sp: Space, mem: Memory, free: seq<nat>, v: nat) {
    && v in sp.pages && sp.pages[v].Present? && sp.pages[v].flags == PTE_W + PTE_U
    && sp.pages[v].frame in free && sp.pages[v].frame in mem
    && mem[sp.pages[v].frame] == Bytes(ZeroBytes())
  }

  /** From `sp` to `sp'` the pages [lo, hi) were added, fresh and zeroed; nothing else of the
      translation, and none of the old pages, changed. */
  ghost predicate Grown(mem: Memory, sp: Space, free: seq<nat>, mem': Memory, sp': Space, lo: nat, hi: nat) {
    && (forall v :: 0 <= v < lo || v >= hi ==> PteOf(sp'.pages, v) == PteOf(sp.pages, v))
    && (forall v :: lo <= v < hi ==> FreshZero(sp', mem', free, v))
    && SamePages(mem, sp, mem')
  }

  lemma GrownNone(mem: Memory, sp: Space, free: seq<nat>, lo: nat)
    requires SpaceOk(mem, sp, free)
    ensures Grown(mem, sp, free, mem, sp, lo, lo) && SamePages(mem, sp, mem)
  {
    forall g | OwnsPage(sp, g) ensures Owns(sp, g) {}
  }

  /** A page just taken from the free list, with any contents written to it. */
  lemma TakePage(mem: Memory, sp: Space, free: seq<nat>, p: Page, a: nat)
    requires SpaceOk(mem, sp, free) && free != []
    ensures free[0] in mem && SpaceOk(mem[free[0] := p], sp, free[1..])
    ensures Unowned(mem[free[0] := p], sp, free[1..], a, 1, free[0])
    ensures NoDup(free) && (forall g :: g in free ==> !Owns(sp, g)) && free[0] in free
  {
    var f := free[0];
    assert f in free;
    NoDupTail(free);
    RepFrame(mem, mem[f := p], sp);
    hide Owns, Rep, OneRole, NoDup;
    forall i | 0 <= i < |free[1..]| ensures free[1..][i] in mem { assert free[1..][i] == free[i + 1]; }
  }

  ghost predicate Sub(xs: seq<nat>, ys: seq<nat>) { forall f :: f in xs ==> f in ys }

  lemma ConservedTwice(sp0: Space, free0: seq<nat>, sp1: Space, free1: seq<nat>, sp2: Space, free2: seq<nat>)
    requires Conserved(sp0, free0, sp1, free1) && Conserved(sp1, free1, sp2, free2)
    ensures Conserved(sp0, free0, sp2, free2)
  {
    hide Owns;
  }

  /** Mapping a page just taken leaves the old pages and the new one alone. */
  lemma MapKeeps(mem: Memory, sp: Space, free: seq<nat>, p: Page, mem': Memory)
    requires SpaceOk(mem, sp, free) && free != [] && free[0] in mem
    requires TablesOnly(mem[free[0] := p], sp, free[1..], mem')
    ensures SamePages(mem, sp, mem') && free[0] in mem' && mem'[free[0]] == p
  {
    var f := free[0];
    assert f in free;
    NoDupTail(free);
    assert !OwnsTable(sp, f) && f != sp.dir;
    forall g | OwnsPage(sp, g) ensures g in mem && g in mem' && mem'[g] == mem[g] {
      assert Owns(sp, g) && g !in free;
    }
  }

  lemma MapTouches(mem: Memory, sp: Space, free: seq<nat>, p: Page, mem': Memory)
    requires free != [] && free[0] in mem && TablesOnly(mem[free[0] := p], sp, free[1..], mem')
    ensures Untouched(mem, sp, free, mem')
  {
    assert free[0] in free;
    forall f | f in mem && !Owns(sp, f) && f !in free ensures f in mem' && mem'[f] == mem[f] {
      assert f !in free[1..];
    }
  }

  lemma StillUntouched(m0: Memory, sp0: Space, free0: seq<nat>, m1: Memory, sp1: Space, free1: seq<nat>, m2: Memory)
    requires Conserved(sp0, free0, sp1, free1) && Untouched(m0, sp0, free0, m1) && Untouched(m1, sp1, free1, m2)
    ensures Untouched(m0, sp0, free0, m2)
  {
    hide Owns;
  }

  /** allocuvm's retreat after a page was taken and not mapped. */
  lemma UndoTouches(m0: Memory, sp0: Space, free0: seq<nat>, sp1: Space, free1: seq<nat>, m3: Memory, sp3: Space,
                    free3: seq<nat>, m: Memory)
    requires Conserved(sp0, free0, sp1, free1) && free1 != [] && Conserved(sp1, free1[1..], sp3, free3)
    requires Untouched(m0, sp0, free0, m3) && Untouched(m3, sp3, free3, m) && free1[0] in m
    ensures Untouched(m0, sp0, free0, m[free1[0] := Junk])
  {
    hide Owns;
    assert free1[0] in free1 && forall f :: f in free1[1..] ==> f in free1;
  }

  lemma PagesOfMapN(sp: Space, sp': Space, a: nat, k: nat, f: nat, flags: nat)
    requires sp'.pages == MapN(sp.pages, a, k, f, flags) && k <= 1 && a < USER && a !in sp.pages
    ensures forall g :: OwnsPage(sp', g) <==> OwnsPage(sp, g) || (k == 1 && g == f)
  {
    assert k == 1 ==> sp'.pages == MapN(sp.pages, a, 0, f, flags)[a := Present(f, flags)];
    forall g ensures OwnsPage(sp', g) <==> OwnsPage(sp, g) || (k == 1 && g == f) {
      if OwnsPage(sp, g) { var v :| UserAt(sp, v, g); assert UserAt(sp', v, g); }
      if OwnsPage(sp', g) { var v :| UserAt(sp', v, g); assert UserAt(sp, v, g) || (k == 1 && v == a && g == f); }
      if k == 1 && g == f { assert UserAt(sp', a, f); }
    }
  }

  lemma MapConserves(sp: Space, free: seq<nat>, sp': Space, free': seq<nat>, a: nat, k: nat, flags: nat)
    requires free != [] && NoDup(free) && a < USER && a !in sp.pages && k <= 1
    requires TablesConserved(sp, free[1..], sp', free')
    requires sp'.pages == MapN(sp.pages, a, k, free[0], flags)
    ensures Conserved(sp, if k == 1 then free else free[1..], sp', free') && Sub(free', free)
  {
    PagesOfMapN(sp, sp', a, k, free[0], flags);
    NoDupTail(free);
    hide OwnsPage, OwnsTable, MapN, NoDup;
  }

  /** The old pages of a grown space are among its pages. */
  lemma OldPagesStay(m0: Memory, sp: Space, free0: seq<nat>, m1: Memory, sp1: Space, lo: nat, a: nat)
    requires Grown(m0, sp, free0, m1, sp1, lo, a) && UserPrefix(sp, lo)
    ensures forall g :: OwnsPage(sp, g) ==> OwnsPage(sp1, g)
  {
    forall g | OwnsPage(sp, g) ensures OwnsPage(sp1, g) {
      var v: nat :| UserAt(sp, v, g);
      assert v < lo;
      assert PteOf(sp1.pages, v) == PteOf(sp.pages, v);
      assert UserAt(sp1, v, g);
    }
  }

  lemma GrownStays(m0: Memory, sp: Space, free0: seq<nat>, m1: Memory, sp1: Space, f: nat,
                   m3: Memory, sp3: Space, lo: nat, a: nat)
    requires Grown(m0, sp, free0, m1, sp1, lo, a) && UserPrefix(sp, lo) && UserPrefix(sp1, a)
    requires SamePages(m1, sp1, m3) && sp3.pages == MapN(sp1.pages, a, 0, f, PTE_W + PTE_U)
    ensures sp3.pages == sp1.pages && UserPrefix(sp3, a)
    ensures Grown(m0, sp, free0, m3, sp3, lo, a)
  {
    forall v | lo <= v < a ensures FreshZero(sp3, m3, free0, v) {
      assert FreshZero(sp1, m1, free0, v);
      assert UserAt(sp1, v, sp1.pages[v].frame);
    }
    OldPagesStay(m0, sp, free0, m1, sp1, lo, a);
  }

  /** One more page. */
  lemma GrowOne(m0: Memory, sp: Space, free0: seq<nat>, m1: Memory, sp1: Space, f: nat,
                m3: Memory, sp3: Space, lo: nat, a: nat)
    requires Grown(m0, sp, free0, m1, sp1, lo, a) && UserPrefix(sp, lo) && UserPrefix(sp1, a)
    requires lo <= a < USER && f in free0 && f in m3 && m3[f] == Bytes(ZeroBytes())
    requires SamePages(m1, sp1, m3) && sp3.pages == MapN(sp1.pages, a, 1, f, PTE_W + PTE_U)
    ensures UserPrefix(sp3, a + 1) && Grown(m0, sp, free0, m3, sp3, lo, a + 1)
  {
    assert sp3.pages == MapN(sp1.pages, a, 0, f, PTE_W + PTE_U)[a := Present(f, PTE_W + PTE_U)];
    forall v | lo <= v < a + 1 ensures FreshZero(sp3, m3, free0, v) {
      if v < a {
        assert FreshZero(sp1, m1, free0, v);
        assert UserAt(sp1, v, sp1.pages[v].frame);
      }
    }
    OldPagesStay(m0, sp, free0, m1, sp1, lo, a);
  }

  /** Deallocating what was added restores the old translation and the old pages. */
  lemma UndoPages(m0: Memory, sp: Space, free0: seq<nat>, m1: Memory, sp1: Space, free1: seq<nat>,
                  lo: nat, a: nat, hi: nat, m2: Memory, sp2: Space)
    requires SpaceOk(m0, sp, free0) && SpaceOk(m1, sp1, free1) && Grown(m0, sp, free0, m1, sp1, lo, a)
    requires UserPrefix(sp, lo) && UserPrefix(sp1, a) && lo <= a <= hi <= USER
    requires sp2.pages == Dealloc(sp1.tables, sp1.pages, lo, hi) && KeepsPages(m1, sp1, m2, sp2)
    ensures sp2.pages == sp.pages && SamePages(m0, sp, m2)
  {
    forall v: nat ensures v in sp2.pages <==> v in sp.pages
                  ensures v in sp.pages ==> PteOf(sp2.pages, v) == PteOf(sp.pages, v)
    {
      PrefixDealloc(sp1.tables, sp1.pages, lo, hi, a, v);
      assert v < lo || v >= a ==> PteOf(sp1.pages, v) == PteOf(sp.pages, v);
    }
    assert sp2.pages == sp.pages;
    forall g | OwnsPage(sp, g) ensures g in m0 && g in m2 && m2[g] == m0[g] {
      var v :| UserAt(sp, v, g);
      assert UserAt(sp2, v, g);
      assert OwnsPage(sp2, g);
    }
  }

  /** kfree of the page that could not be mapped. */
  lemma GiveBack(m0: Memory, sp: Space, free0: seq<nat>, sp1: Space, free1: seq<nat>,
                 m: Memory, sp2: Space, free2: seq<nat>)
    requires SpaceOk(m0, sp, free0) && SpaceOk(m, sp2, free2) && free1 != [] && NoDup(free1)
    requires forall g :: g in free1 ==> !Owns(sp1, g)
    requires Conserved(sp, free0, sp1, free1) && Conserved(sp1, free1[1..], sp2, free2)
    requires free1[0] in m && SamePages(m0, sp, m) && sp2.pages == sp.pages
    ensures SpaceOk(m[free1[0] := Junk], sp2, [free1[0]] + free2)
    ensures Conserved(sp, free0, sp2, [free1[0]] + free2) && SamePages(m0, sp, m[free1[0] := Junk])
  {
    var f := free1[0];
    assert f in free1;
    NoDupTail(free1);
    assert !Owns(sp2, f) && f !in free2;
    RepFrame(m, m[f := Junk], sp2);
    NoDupCons(f, free2);
    forall g | OwnsPage(sp, g) ensures g != f {
      var v :| UserAt(sp, v, g);
      assert UserAt(sp2, v, g);
      assert Owns(sp2, g);
    }
    hide Rep, OneRole, NoDup;
  }

  lemma NextPage(sp: Space, a: nat)
    requires UserPrefix(sp, a) && a < USER
    ensures First(a * PGSIZE) == a && Count(a * PGSIZE, PGSIZE) == 1 && Last(a * PGSIZE, PGSIZE) == a
    ensures a !in sp.pages
  {
  }

  /** The first `n` pages that there were, if they still are, keep their entries and their contents. */
  ghost predicate Kept(mem: Memory, sp: Space, mem': Memory, sp': Space, n: nat) {
    forall v: nat, f: nat :: v < n && UserAt(sp, v, f) ==>
      PteOf(sp'.pages, v) == PteOf(sp.pages, v) && f in mem && f in mem' && mem'[f] == mem[f]
  }

  lemma KeptAll(mem: Memory, sp: Space, free: seq<nat>, n: nat)
    requires SpaceOk(mem, sp, free)
    ensures Kept(mem, sp, mem, sp, n)
  {
    forall v: nat, f: nat | UserAt(sp, v, f) ensures Owns(sp, f) {}
  }

  lemma KeptSame(mem: Memory, sp: Space, mem': Memory, n: nat)
    requires KeepsPages(mem, sp, mem', sp)
    ensures Kept(mem, sp, mem', sp, n)
  {
    forall v: nat, f: nat | UserAt(sp, v, f) ensures OwnsPage(sp, f) {}
  }

  lemma KeptAfterAlloc(mem: Memory, sp: Space, free: seq<nat>, mem': Memory, sp': Space, lo: nat, hi: nat, s: nat)
    requires UserPrefix(sp, lo) && lo <= hi
    requires s != 0 ==> Grown(mem, sp, free, mem', sp', lo, hi)
    requires s == 0 ==> sp'.pages == sp.pages && SamePages(mem, sp, mem')
    ensures Kept(mem, sp, mem', sp', if s == 0 then lo else hi)
    ensures s == 0 ==> UserPrefix(sp', lo)
  {
    forall v: nat, f: nat | UserAt(sp, v, f) ensures OwnsPage(sp, f) && v < lo {}
  }

  lemma KeptAfterDealloc(mem: Memory, sp: Space, free: seq<nat>, mem': Memory, sp': Space, lo: nat, hi: nat)
    requires SpaceOk(mem, sp, free) && UserPrefix(sp, hi) && lo <= hi
    requires sp'.pages == Dealloc(sp.tables, sp.pages, lo, hi) && KeepsPages(mem, sp, mem', sp')
    ensures UserPrefix(sp', lo) && Kept(mem, sp, mem', sp', lo)
  {
    forall v: nat ensures v in sp'.pages <==> v in sp.pages && (v < lo || v >= USER)
                  ensures v in sp.pages && v < lo ==> PteOf(sp'.pages, v) == sp.pages[v]
    {
      PrefixDealloc(sp.tables, sp.pages, lo, hi, hi, v);
    }
    forall v: nat, f: nat | v < lo && UserAt(sp, v, f) ensures OwnsPage(sp', f) {
      assert UserAt(sp', v, f);
    }
  }

  lemma PrefixUnique(sp: Space, m: nat, n: nat)
    requires UserPrefix(sp, m) && m < n <= USER
    ensures !UserPrefix(sp, n)
  {
    assert m !in sp.pages;
  }

  function PageUp(sz: nat): nat { (sz + PGSIZE - 1) / PGSIZE }

  lemma NothingChanged(mem: Memory, sp: Space, free: seq<nat>)
    ensures Conserved(sp, free, sp, free) && Untouched(mem, sp, free, mem)
  {
  }

  lemma SameKeys(mem: Memory, sp: Space, free: seq<nat>, mem': Memory)
    requires Untouched(mem, sp, free, mem')
    ensures mem'.Keys == mem.Keys
  {
  }

  lemma PagesInMemory(mem: Memory, sp: Space, free: seq<nat>)
    requires SpaceOk(mem, sp, free)
    ensures KeepsPages(mem, sp, mem, sp)
  {
    forall g | OwnsPage(sp, g) ensures Owns(sp, g) {}
  }

  lemma KeepsTwice(m0: Memory, sp0: Space, m1: Memory, sp1: Space, m2: Memory, sp2: Space)
    requires KeepsPages(m0, sp0, m1, sp1) && KeepsPages(m1, sp1, m2, sp2)
    ensures KeepsPages(m0, sp0, m2, sp2)
  {
    hide OwnsPage;
  }

  lemma UntouchedTwice(m0: Memory, sp0: Space, free0: seq<nat>, m1: Memory, sp1: Space,
                       free1: seq<nat>, sp2: Space, free2: seq<nat>, m2: Memory)
    requires Conserved(sp0, free0, sp1, free1) && Untouched(m0, sp0, free0, m1)
    requires Conserved(sp1, free1, sp2, free2) && Untouched(m1, sp1, free1, m2)
    ensures Conserved(sp0, free0, sp2, free2) && Untouched(m0, sp0, free0, m2)
  {
    hide Owns;
  }

  lemma DeallocStep(tables: map<nat, nat>, pages: map<nat, Pte>, a: nat, end: nat)
    requires a < end
    ensures Pdx(a) !in tables ==> Dealloc(tables, pages, a, end) == Dealloc(tables, pages, a + ENTRIES, end)
    ensures Pdx(a) in tables ==> Dealloc(tables, pages, a, end) == Dealloc(tables, pages - {a}, a + 1, end)
    ensures a !in pages ==> pages - {a} == pages
  {
  }

  lemma DeallocDone(tables: map<nat, nat>, pages: map<nat, Pte>, a: nat, end: nat)
    requires a >= end
    ensures Dealloc(tables, pages, a, end) == pages
  {
  }

  lemma EntryOf(mem: Memory, sp: Space, free: seq<nat>, v: nat)
    requires SpaceOk(mem, sp, free) && v < VPAGES && Pdx(v) in sp.tables
    ensures var t := sp.tables[Pdx(v)];
            && t in mem && mem[t].Table? && |mem[t].entries| == ENTRIES
            && mem[t].entries[v % ENTRIES] == PteOf(sp.pages, v)
            && (mem[t].entries[v % ENTRIES].Present? <==> v in sp.pages)
  {
    SetEntry(mem, sp, v, Absent);
  }

  /** The directory slots of the pages from `a` on, `n` of them. */
  ghost function Slots(a: nat, n: nat): set<nat> { if n == 0 then {} else Slots(a, n - 1) + {Pdx(a + n - 1)} }

  /** From `sp` to `sp'` the slots of the pages from `a` on, `n` of them, got tables where they had none, and
      each new table took one page of the free list. */
  ghost predicate Tabled(sp: Space, free: seq<nat>, sp': Space, free': seq<nat>, a: nat, n: nat) {
    && Joined(sp.tables.Keys, Slots(a, n), sp'.tables.Keys)
    && |free'| + |sp'.tables.Keys| == |free| + |sp.tables.Keys|
  }

  lemma TabledNone(sp: Space, free: seq<nat>, a: nat)
    ensures Tabled(sp, free, sp, free, a, 0)
  {
  }

  lemma OneSlot(v: nat)
    ensures Slots(v, 1) == {Pdx(v)}
  {
    assert Slots(v, 0) == {};
  }

  lemma TabledAlready(sp: Space, free: seq<nat>, v: nat)
    requires Pdx(v) in sp.tables
    ensures Tabled(sp, free, sp, free, v, 1)
  {
    OneSlot(v);
  }

  lemma TabledNew(sp: Space, free: seq<nat>, v: nat)
    requires Pdx(v) !in sp.tables && free != []
    ensures Tabled(sp, free, sp.(tables := sp.tables[Pdx(v) := free[0]]), free[1..], v, 1)
  {
    OneSlot(v);
    assert sp.tables[Pdx(v) := free[0]].Keys == sp.tables.Keys + {Pdx(v)};
  }

  lemma TabledStep(sp: Space, free: seq<nat>, sp1: Space, free1: seq<nat>, sp2: Space, free2: seq<nat>, a: nat,
                   k: nat, e: Pte)
    requires Tabled(sp, free, sp1, free1, a, k) && Tabled(sp1, free1, sp2, free2, a + k, 1)
    ensures Tabled(sp, free, SetPage(sp2, a + k, e), free2, a, k + 1)
  {
    hide Joined, Pdx;
    JoinedTwice(sp.tables.Keys, Slots(a, k), sp1.tables.Keys, Slots(a + k, 1), sp2.tables.Keys, Slots(a, k + 1)) by {
      OneSlot(a + k);
      NextSlot(a, k);
    }
  }

  ghost predicate Joined(a: set<nat>, b: set<nat>, c: set<nat>) { c == a + b }

  lemma JoinedTwice(a: set<nat>, s: set<nat>, b: set<nat>, t: set<nat>, c: set<nat>, u: set<nat>)
    requires Joined(a, s, b) && Joined(b, t, c) && u == s + t
    ensures Joined(a, u, c)
  {
  }

  lemma NextSlot(a: nat, k: nat)
    ensures Slots(a, k + 1) == Slots(a, k) + {Pdx(a + k)}
  {
  }

  function First(va: nat): nat { va / PGSIZE }

  function Last(va: nat, size: nat): nat
    requires size >= 1
  {
    (va + size - 1) / PGSIZE
  }

  function Count(va: nat, size: nat): nat
    requires size >= 1
  {
    Last(va, size) - First(va) + 1
  }

  /** `n` consecutive pages from `a` mapped to consecutive frames from `f`. */
  ghost function MapN(pages: map<nat, Pte>, a: nat, n: nat, f: nat, flags: nat): map<nat, Pte> {
    if n == 0 then pages else MapN(pages, a, n - 1, f, flags)[a + n - 1 := Present(f + n - 1, flags)]
  }

  lemma {:induction false} MapNAt(pages: map<nat, Pte>, a: nat, n: nat, f: nat, flags: nat, v: nat)
    ensures PteOf(MapN(pages, a, n, f, flags), v) ==
            if a <= v < a + n then Present(f + v - a, flags) else PteOf(pages, v)
    ensures v in MapN(pages, a, n, f, flags) <==> v in pages || a <= v < a + n
  {
    if n > 0 { MapNAt(pages, a, n - 1, f, flags, v); }
  }

  lemma MapNMisses(pages: map<nat, Pte>, a: nat, n: nat, f: nat, flags: nat, v: nat)
    requires v !in pages && v >= a + n
    ensures v !in MapN(pages, a, n, f, flags)
  {
    MapNAt(pages, a, n, f, flags, v);
  }

  /** The frames about to be mapped as user pages belong to nobody. */
  ghost predicate Unowned(mem: Memory, sp: Space, free: seq<nat>, a: nat, n: nat, f: nat) {
    forall g :: f <= g < f + n && a + (g - f) < USER ==> !Owns(sp, g) && g !in free && g in mem
  }

  lemma StillUnowned(mem: Memory, mem': Memory, sp: Space, free: seq<nat>, sp': Space, free': seq<nat>,
                     a: nat, k: nat, n: nat, f: nat, flags: nat)
    requires Unowned(mem, sp, free, a, n, f) && k < n
    requires TablesConserved(sp, free, sp', free') && TablesOnly(mem, sp, free, mem')
    requires sp'.pages == MapN(sp.pages, a, k, f, flags)
    ensures a + k < USER ==> !Owns(sp', f + k) && f + k !in free' && f + k in mem'
  {
    var g := f + k;
    if OwnsPage(sp', g) {
      var v :| UserAt(sp', v, g);
      MapNAt(sp.pages, a, k, f, flags, v);
      assert UserAt(sp, v, g);
    }
    assert a + k < USER ==> !Owns(sp, g) && g !in free && g in mem;
    assert OwnsPage(sp, g) || OwnsTable(sp, g) ==> Owns(sp, g);
    assert OwnsTable(sp', g) || g in free' ==> OwnsTable(sp, g) || g in free;
    assert OwnsPage(sp', g) ==> OwnsPage(sp, g);
  }

  lemma SameIsConserved(mem: Memory, sp: Space, free: seq<nat>)
    ensures TablesConserved(sp, free, sp, free) && TablesOnly(mem, sp, free, mem)
  {
  }

  lemma DirEntry(mem: Memory, sp: Space, v: nat)
    requires Rep(mem, sp) && v < VPAGES
    ensures sp.dir in mem && mem[sp.dir].Table? && |mem[sp.dir].entries| == ENTRIES
    ensures mem[sp.dir].entries[v / ENTRIES] == PdeOf(sp.tables, Pdx(v))
  {
  }
}