/** Two-level page tables and the partial map they stand for.

    Physical memory is a map from frame numbers to pages; a page holds page-table entries, bytes,
    or the junk kfree leaves.  A `Space` is the abstract view of one page directory: which
    directory slots have a page table, and which virtual pages map where. */
module VmSpec {

  const ENTRIES: nat := 1024             // NPDENTRIES == NPTENTRIES
  const PGSIZE: nat := 4096
  const USER: nat := 512 * 1024          // KERNBASE / PGSIZE
  const VPAGES: nat := 1024 * 1024       // virtual pages of a 32-bit address space
  const PTE_W: nat := 2
  const PTE_U: nat := 4

  datatype Pte = Absent | Present(frame: nat, flags: nat)

  datatype Page = Table(entries: seq<Pte>) | Bytes(data: seq<int>) | Junk

  type Memory = map<nat, Page>

  datatype Space = Space(dir: nat, tables: map<nat, nat>, pages: map<nat, Pte>)

  function EmptyTable(): (r: seq<Pte>)
    ensures |r| == ENTRIES
  {
    seq(ENTRIES, _ => Absent)
  }

  function ZeroBytes(): seq<int> { seq(PGSIZE, _ => 0) }

  function Pdx(v: nat): nat { v / ENTRIES }

  function Ptx(v: nat): (r: nat)
    ensures r < ENTRIES
  {
    v % ENTRIES
  }

  /** The virtual page of entry `j` of the table in slot `i`. */
  function Vpn(i: nat, j: nat): (v: nat)
    requires j < ENTRIES
    ensures Pdx(v) == i && Ptx(v) == j
  {
    i * ENTRIES + j
  }

  lemma VpnOf(v: nat)
    ensures Vpn(Pdx(v), Ptx(v)) == v
  {
  }

  function PteOf(pages: map<nat, Pte>, v: nat): Pte {
    if v in pages then pages[v] else Absent
  }

  function PdeOf(tables: map<nat, nat>, i: nat): Pte {
    if i in tables then Present(tables[i], PTE_W + PTE_U) else Absent
  }

  /** The page table in frame `f` holds the entries of directory slot `i`. */
  ghost predicate TableOk(mem: Memory, f: nat, pages: map<nat, Pte>, i: nat) {
    && f in mem && mem[f].Table? && |mem[f].entries| == ENTRIES
    && forall j :: 0 <= j < ENTRIES ==> mem[f].entries[j] == PteOf(pages, Vpn(i, j))
  }

  ghost predicate DirOk(mem: Memory, sp: Space) {
    && sp.dir in mem && mem[sp.dir].Table? && |mem[sp.dir].entries| == ENTRIES
    && forall i :: 0 <= i < ENTRIES ==> mem[sp.dir].entries[i] == PdeOf(sp.tables, i)
  }

  /** Memory holds this space. */
  ghost predicate Rep(mem: Memory, sp: Space) {
    && DirOk(mem, sp)
    && (forall i :: i in sp.tables ==> i < ENTRIES && TableOk(mem, sp.tables[i], sp.pages, i))
    && (forall v :: v in sp.pages ==> sp.pages[v].Present? && v < VPAGES && Pdx(v) in sp.tables)
  }

  /** What the hardware finds for virtual page `v`. */
  function Walk(mem: Memory, dir: nat, v: nat): Pte {
    if dir in mem && mem[dir].Table? && |mem[dir].entries| == ENTRIES && Pdx(v) < ENTRIES then
      match mem[dir].entries[Pdx(v)]
      case Absent => Absent
      case Present(f, _) =>
        if f in mem && mem[f].Table? && |mem[f].entries| == ENTRIES
        then mem[f].entries[Ptx(v)] else Absent
    else Absent
  }

  /** The two-level structure refines the partial map: the walk finds exactly its entries. */
  lemma WalkIsPages(mem: Memory, sp: Space, v: nat)
    requires Rep(mem, sp) && v < VPAGES
    ensures Walk(mem, sp.dir, v) == PteOf(sp.pages, v)
  {
    var i: nat := Pdx(v);
    assert mem[sp.dir].entries[i] == PdeOf(sp.tables, i);
    if i in sp.tables {
      assert TableOk(mem, sp.tables[i], sp.pages, i);
      VpnOf(v);
    }
  }

  // ---------------------------------------------------------------- ownership

  ghost predicate TableAt(sp: Space, i: nat, f: nat) { i in sp.tables && sp.tables[i] == f }

  ghost predicate UserAt(sp: Space, v: nat, f: nat) {
    v in sp.pages && v < USER && sp.pages[v].Present? && sp.pages[v].frame == f
  }

  ghost predicate OwnsTable(sp: Space, f: nat) { exists i :: TableAt(sp, i, f) }

  ghost predicate OwnsPage(sp: Space, f: nat) { exists v :: UserAt(sp, v, f) }

  /** Frame `f` belongs to the space: its directory, a page table, or a user page. */
  ghost predicate Owns(sp: Space, f: nat) {
    f == sp.dir || OwnsTable(sp, f) || OwnsPage(sp, f)
  }

  /** Each owned frame has one role. */
  ghost predicate OneRole(sp: Space) {
    && !OwnsTable(sp, sp.dir) && !OwnsPage(sp, sp.dir)
    && (forall i, j, f :: TableAt(sp, i, f) && TableAt(sp, j, f) ==> i == j)
    && (forall v, w, f :: UserAt(sp, v, f) && UserAt(sp, w, f) ==> v == w)
    && (forall f :: !(OwnsTable(sp, f) && OwnsPage(sp, f)))
  }

  predicate NoDup(xs: seq<nat>) { forall i, j :: 0 <= i < j < |xs| ==> xs[i] != xs[j] }

  /** The free list is a list of distinct pages, none of which the space owns. */
  ghost predicate FreeOk(mem: Memory, sp: Space, free: seq<nat>) {
    && NoDup(free)
    && (forall i :: 0 <= i < |free| ==> free[i] in mem)
    && (forall f :: f in free ==> !Owns(sp, f))
  }

  ghost predicate SpaceOk(mem: Memory, sp: Space, free: seq<nat>) {
    && Rep(mem, sp) && OneRole(sp) && FreeOk(mem, sp, free)
    && forall f :: Owns(sp, f) ==> f in mem
  }

  // ---------------------------------------------------------------- the three changes

  function WithEntry(mem: Memory, f: nat, i: nat, e: Pte): Memory
    requires f in mem && mem[f].Table? && i < |mem[f].entries|
  {
    mem[f := Table(mem[f].entries[i := e])]
  }

  /** A new page table: frame `f`, cleared, entered in directory slot `i`. */
  lemma AddTable(mem: Memory, sp: Space, i: nat, f: nat)
    requires Rep(mem, sp) && OneRole(sp) && i < ENTRIES && i !in sp.tables && f in mem && !Owns(sp, f)
    ensures var m := mem[f := Table(EmptyTable())];
            && sp.dir in m && m[sp.dir].Table? && i < |m[sp.dir].entries|
            && Rep(WithEntry(m, sp.dir, i, Present(f, PTE_W + PTE_U)), sp.(tables := sp.tables[i := f]))
  {
    var m := mem[f := Table(EmptyTable())];
    var m' := WithEntry(m, sp.dir, i, Present(f, PTE_W + PTE_U));
    var sp' := sp.(tables := sp.tables[i := f]);
    forall k: nat | k in sp'.tables ensures k < ENTRIES && TableOk(m', sp'.tables[k], sp'.pages, k) {
      if k == i {
        NoPagesInSlot(mem, sp, i);
      } else {
        assert TableOk(mem, sp.tables[k], sp.pages, k) && TableAt(sp, k, sp.tables[k]);
      }
    }
  }

  lemma NoPagesInSlot(mem: Memory, sp: Space, i: nat)
    requires Rep(mem, sp) && i !in sp.tables
    ensures forall j :: 0 <= j < ENTRIES ==> PteOf(sp.pages, Vpn(i, j)) == Absent
  {
    forall j | 0 <= j < ENTRIES ensures PteOf(sp.pages, Vpn(i, j)) == Absent {
      assert Pdx(Vpn(i, j)) == i;
    }
  }

  lemma AddTableRoles(sp: Space, i: nat, f: nat)
    requires OneRole(sp) && i !in sp.tables && !Owns(sp, f)
    ensures var sp' := sp.(tables := sp.tables[i := f]);
            && OneRole(sp') && (forall g :: Owns(sp', g) <==> Owns(sp, g) || g == f)
            && forall g :: OwnsTable(sp', g) <==> OwnsTable(sp, g) || g == f
  {
    var sp' := sp.(tables := sp.tables[i := f]);
    assert forall k, g :: TableAt(sp', k, g) <==> TableAt(sp, k, g) || (k == i && g == f);
    assert forall v, g :: UserAt(sp', v, g) <==> UserAt(sp, v, g);
    assert TableAt(sp', i, f);
    forall g ensures OwnsTable(sp', g) <==> OwnsTable(sp, g) || g == f {
      if OwnsTable(sp, g) {
        var k :| TableAt(sp, k, g);
        assert TableAt(sp', k, g);
      }
    }
    forall g ensures OwnsPage(sp', g) <==> OwnsPage(sp, g) {
      if OwnsPage(sp, g) { var v :| UserAt(sp, v, g); assert UserAt(sp', v, g); }
      if OwnsPage(sp', g) { var v :| UserAt(sp', v, g); assert UserAt(sp, v, g); }
    }
  }

  /** Changing the entry of virtual page `v`, in an existing page table, to `e`. */
  function SetPage(sp: Space, v: nat, e: Pte): Space {
    sp.(pages := if e.Present? then sp.pages[v := e] else sp.pages - {v})
  }

  lemma SetEntryTable(mem: Memory, sp: Space, v: nat, e: Pte, k: nat)
    requires k in sp.tables && TableOk(mem, sp.tables[k], sp.pages, k)
    requires Pdx(v) in sp.tables && sp.tables[Pdx(v)] in mem && mem[sp.tables[Pdx(v)]].Table?
    requires |mem[sp.tables[Pdx(v)]].entries| == ENTRIES
    requires sp.tables[k] == sp.tables[Pdx(v)] ==> k == Pdx(v)
    ensures TableOk(WithEntry(mem, sp.tables[Pdx(v)], Ptx(v), e), sp.tables[k], SetPage(sp, v, e).pages, k)
  {
    hide Vpn, Pdx, Ptx;
    VpnOf(v);
    forall j | 0 <= j < ENTRIES
      ensures PteOf(SetPage(sp, v, e).pages, Vpn(k, j)) ==
              if k == Pdx(v) && j == Ptx(v) then e else PteOf(sp.pages, Vpn(k, j))
    {
    }
  }

  lemma SetEntry(mem: Memory, sp: Space, v: nat, e: Pte)
    requires Rep(mem, sp) && OneRole(sp) && v < VPAGES && Pdx(v) in sp.tables
    ensures var t := sp.tables[Pdx(v)];
            && t in mem && mem[t].Table? && |mem[t].entries| == ENTRIES
            && mem[t].entries[Ptx(v)] == PteOf(sp.pages, v)
            && Rep(WithEntry(mem, t, Ptx(v), e), SetPage(sp, v, e))
  {
    hide Vpn, Pdx, Ptx;
    var i: nat := Pdx(v);
    var t := sp.tables[i];
    VpnOf(v);
    assert TableOk(mem, t, sp.pages, i) && TableAt(sp, i, t);
    var m := WithEntry(mem, t, Ptx(v), e);
    var sp' := SetPage(sp, v, e);
    assert DirOk(m, sp');
    forall k: nat | k in sp.tables ensures TableOk(m, sp.tables[k], sp'.pages, k) {
      assert TableOk(mem, sp.tables[k], sp.pages, k) && TableAt(sp, k, sp.tables[k]);
      SetEntryTable(mem, sp, v, e, k);
    }
    hide TableOk, DirOk;
  }

  /** Mapping a user page adds its frame to the space. */
  lemma MapRoles(sp: Space, v: nat, f: nat, flags: nat)
    requires OneRole(sp) && v < USER && v !in sp.pages && !Owns(sp, f)
    ensures var sp' := SetPage(sp, v, Present(f, flags));
            OneRole(sp') && forall g :: Owns(sp', g) <==> Owns(sp, g) || g == f
  {
    var sp' := SetPage(sp, v, Present(f, flags));
    assert forall k, g :: TableAt(sp', k, g) <==> TableAt(sp, k, g);
    assert forall w, g :: UserAt(sp', w, g) <==> UserAt(sp, w, g) || (w == v && g == f);
    assert UserAt(sp', v, f);
    RolesFrom(sp, sp');
    forall g ensures OwnsPage(sp', g) <==> OwnsPage(sp, g) || g == f {
      if OwnsPage(sp, g) { var w :| UserAt(sp, w, g); assert UserAt(sp', w, g); }
    }
  }

  /** Mapping a kernel page changes nothing about ownership. */
  lemma MapKernelRoles(sp: Space, v: nat, e: Pte)
    requires OneRole(sp) && v >= USER
    ensures OneRole(SetPage(sp, v, e)) && forall g :: Owns(SetPage(sp, v, e), g) <==> Owns(sp, g)
  {
    var sp' := SetPage(sp, v, e);
    assert forall k, g :: TableAt(sp', k, g) <==> TableAt(sp, k, g);
    assert forall w, g :: UserAt(sp', w, g) <==> UserAt(sp, w, g);
    RolesFrom(sp, sp');
    forall g ensures OwnsPage(sp', g) <==> OwnsPage(sp, g) {
      if OwnsPage(sp, g) { var w :| UserAt(sp, w, g); assert UserAt(sp', w, g); }
      if OwnsPage(sp', g) { var w :| UserAt(sp', w, g); assert UserAt(sp, w, g); }
    }
  }

  /** Unmapping a user page gives up its frame. */
  lemma UnmapRoles(sp: Space, v: nat)
    requires OneRole(sp) && v in sp.pages && v < USER && sp.pages[v].Present?
    ensures var sp' := SetPage(sp, v, Absent);
            && OneRole(sp') && Owns(sp, sp.pages[v].frame)
            && (forall g :: OwnsPage(sp', g) <==> OwnsPage(sp, g) && g != sp.pages[v].frame)
            && forall g :: Owns(sp', g) <==> Owns(sp, g) && g != sp.pages[v].frame
  {
    var sp' := SetPage(sp, v, Absent);
    var f := sp.pages[v].frame;
    assert UserAt(sp, v, f);
    assert forall k, g :: TableAt(sp', k, g) <==> TableAt(sp, k, g);
    assert forall w, g :: UserAt(sp', w, g) <==> UserAt(sp, w, g) && w != v;
    RolesFrom(sp, sp');
    forall g ensures OwnsPage(sp', g) <==> OwnsPage(sp, g) && g != f {
      if OwnsPage(sp, g) && g != f { var w :| UserAt(sp, w, g); assert UserAt(sp', w, g); }
      if OwnsPage(sp', g) { var w :| UserAt(sp', w, g); assert UserAt(sp, w, g); }
    }
  }

  lemma RolesFrom(sp: Space, sp': Space)
    requires forall k, g :: TableAt(sp', k, g) <==> TableAt(sp, k, g)
    ensures forall g :: OwnsTable(sp', g) <==> OwnsTable(sp, g)
  {
    forall g ensures OwnsTable(sp', g) <==> OwnsTable(sp, g) {
      if OwnsTable(sp, g) { var k :| TableAt(sp, k, g); assert TableAt(sp', k, g); }
      if OwnsTable(sp', g) { var k :| TableAt(sp', k, g); assert TableAt(sp, k, g); }
    }
  }

  /** A space sees only its own directory and tables. */
  lemma RepFrame(mem: Memory, mem': Memory, sp: Space)
    requires Rep(mem, sp)
    requires forall f :: f == sp.dir || OwnsTable(sp, f) ==> f in mem' && f in mem && mem'[f] == mem[f]
    ensures Rep(mem', sp)
  {
    forall k: nat | k in sp.tables ensures TableOk(mem', sp.tables[k], sp.pages, k) {
      assert TableAt(sp, k, sp.tables[k]) && TableOk(mem, sp.tables[k], sp.pages, k);
    }
  }

  // ---------------------------------------------------------------- steps of the allocator

  /** The same frames, differently divided between the space and the free list. */
  ghost predicate Conserved(sp: Space, free: seq<nat>, sp': Space, free': seq<nat>) {
    forall f :: Owns(sp, f) || f in free <==> Owns(sp', f) || f in free'
  }

  /** Page tables come from the free list, and nothing else changes hands. */
  ghost predicate TablesConserved(sp: Space, free: seq<nat>, sp': Space, free': seq<nat>) {
    && sp'.dir == sp.dir
    && (forall f :: OwnsTable(sp, f) || f in free <==> OwnsTable(sp', f) || f in free')
    && (forall f :: f in free' ==> f in free)
  }

  /** Only the directory, page tables and pages from the free list are written. */
  ghost predicate TablesOnly(mem: Memory, sp: Space, free: seq<nat>, mem': Memory) {
    && mem'.Keys == mem.Keys
    && forall f :: f in mem && f != sp.dir && !OwnsTable(sp, f) && f !in free ==> mem'[f] == mem[f]
  }

  lemma TablesOnlyTwice(m0: Memory, sp0: Space, free0: seq<nat>, m1: Memory, sp1: Space,
                        free1: seq<nat>, m2: Memory)
    requires TablesOnly(m0, sp0, free0, m1) && TablesConserved(sp0, free0, sp1, free1)
    requires TablesOnly(m1, sp1, free1, m2)
    ensures TablesOnly(m0, sp0, free0, m2)
  {
  }

  lemma TablesConservedTwice(sp0: Space, free0: seq<nat>, sp1: Space, free1: seq<nat>, sp2: Space, free2: seq<nat>)
    requires TablesConserved(sp0, free0, sp1, free1) && TablesConserved(sp1, free1, sp2, free2)
    ensures TablesConserved(sp0, free0, sp2, free2)
  {
  }

  /** Pages outside the space and the free list are untouched. */
  ghost predicate Untouched(mem: Memory, sp: Space, free: seq<nat>, mem': Memory) {
    && mem'.Keys == mem.Keys
    && forall f :: f in mem && !Owns(sp, f) && f !in free ==> mem'[f] == mem[f]
  }

  lemma NoDupTail(free: seq<nat>)
    requires NoDup(free) && free != []
    ensures NoDup(free[1..]) && free[0] !in free[1..]
    ensures forall f :: f in free <==> f == free[0] || f in free[1..]
  {
    assert free == [free[0]] + free[1..];
  }

  lemma NoDupCons(f: nat, free: seq<nat>)
    requires NoDup(free) && f !in free
    ensures NoDup([f] + free) && forall g :: g in [f] + free <==> g == f || g in free
  {
  }

  /** The user pages that remain keep their contents. */
  ghost predicate KeepsPages(mem: Memory, sp: Space, mem': Memory, sp': Space) {
    forall g :: OwnsPage(sp', g) ==> OwnsPage(sp, g) && g in mem && g in mem' && mem'[g] == mem[g]
  }

  /** walkpgdir's allocating branch. */
  lemma WalkAdds(mem: Memory, sp: Space, free: seq<nat>, i: nat)
    requires SpaceOk(mem, sp, free) && free != [] && i < ENTRIES && i !in sp.tables
    ensures var f := free[0];
            var m := mem[f := Table(EmptyTable())];
            var sp' := sp.(tables := sp.tables[i := f]);
            && f in mem && sp.dir in m && m[sp.dir].Table? && i < |m[sp.dir].entries|
            && var m' := WithEntry(m, sp.dir, i, Present(f, PTE_W + PTE_U));
            && SpaceOk(m', sp', free[1..]) && TablesConserved(sp, free, sp', free[1..])
            && TablesOnly(mem, sp, free, m')
  {
    var f := free[0];
    assert f in free;
    NoDupTail(free);
    AddTable(mem, sp, i, f);
    AddTableRoles(sp, i, f);
    hide Owns, OneRole, Rep, NoDup, OwnsTable;
    var m := mem[f := Table(EmptyTable())];
    var m' := WithEntry(m, sp.dir, i, Present(f, PTE_W + PTE_U));
    assert m'.Keys == mem.Keys by { DirIsOwned(mem, sp); }
    DirIsOwned(mem, sp);
    forall k | 0 <= k < |free[1..]| ensures free[1..][k] in m' { assert free[1..][k] == free[k + 1]; }
  }

  lemma DirIsOwned(mem: Memory, sp: Space)
    requires Rep(mem, sp)
    ensures sp.dir in mem && Owns(sp, sp.dir)
  {
  }

  lemma TableIsOwned(mem: Memory, sp: Space, i: nat)
    requires Rep(mem, sp) && i in sp.tables
    ensures sp.tables[i] in mem && Owns(sp, sp.tables[i]) && OwnsTable(sp, sp.tables[i]) && i < ENTRIES
  {
    assert TableAt(sp, i, sp.tables[i]) && TableOk(mem, sp.tables[i], sp.pages, i);
  }

  /** Filling in the entry of a user page with a frame that nobody owns. */
  lemma MapsOne(mem: Memory, sp: Space, free: seq<nat>, v: nat, f: nat, flags: nat)
    requires SpaceOk(mem, sp, free) && v < VPAGES && Pdx(v) in sp.tables && v !in sp.pages
    requires v < USER ==> !Owns(sp, f) && f !in free && f in mem
    ensures var t := sp.tables[Pdx(v)];
            var sp' := SetPage(sp, v, Present(f, flags));
            && t in mem && mem[t].Table? && |mem[t].entries| == ENTRIES && mem[t].entries[Ptx(v)] == Absent
            && SpaceOk(WithEntry(mem, t, Ptx(v), Present(f, flags)), sp', free)
            && (forall g :: Owns(sp', g) <==> Owns(sp, g) || (v < USER && g == f))
            && TablesConserved(sp, free, sp', free)
            && TablesOnly(mem, sp, free, WithEntry(mem, t, Ptx(v), Present(f, flags)))
  {
    hide Pdx, Ptx, Owns, OneRole, Rep, NoDup, OwnsTable;
    SetEntry(mem, sp, v, Present(f, flags));
    TableIsOwned(mem, sp, Pdx(v));
    SetPageTables(sp, v, Present(f, flags));
    if v < USER { MapRoles(sp, v, f, flags); } else { MapKernelRoles(sp, v, Present(f, flags)); }
  }

  lemma SetPageTables(sp: Space, v: nat, e: Pte)
    ensures forall g :: OwnsTable(SetPage(sp, v, e), g) <==> OwnsTable(sp, g)
  {
    RolesFrom(sp, SetPage(sp, v, e));
  }

  /** kfree of a user page and clearing its entry. */
  lemma UnmapsOne(mem: Memory, sp: Space, free: seq<nat>, v: nat)
    requires SpaceOk(mem, sp, free) && v < USER && v in sp.pages
    ensures Pdx(v) in sp.tables && sp.pages[v].Present? && sp.pages[v].frame in mem
    ensures var t := sp.tables[Pdx(v)];
            var f := sp.pages[v].frame;
            var m := mem[f := Junk];
            var sp' := SetPage(sp, v, Absent);
            && t in m && m[t].Table? && |m[t].entries| == ENTRIES && mem[t].entries[Ptx(v)] == sp.pages[v]
            && var m' := WithEntry(m, t, Ptx(v), Absent);
            && SpaceOk(m', sp', [f] + free) && Conserved(sp, free, sp', [f] + free)
            && Untouched(mem, sp, free, m') && KeepsPages(mem, sp, m', sp')
  {
    hide Pdx, Ptx;
    var f := sp.pages[v].frame;
    var m := mem[f := Junk];
    UnmapRoles(sp, v);
    assert UserAt(sp, v, f);
    RepFrame(mem, m, sp);
    SetEntry(mem, sp, v, Absent);
    SetEntry(m, sp, v, Absent);
    TableIsOwned(mem, sp, Pdx(v));
    NoDupCons(f, free);
    forall g | OwnsPage(sp, g) ensures Owns(sp, g) && g != sp.tables[Pdx(v)] {}
    hide Owns, OneRole, Rep, NoDup, OwnsPage;
  }
}
