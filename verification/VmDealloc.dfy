/** Which pages deallocuvm visits.  When a page table is missing it skips ahead by a whole table's
    worth of pages from where it stands, not to the next table, so it can jump over pages. */
module VmDealloc {
  import opened VmSpec

  /** The pages left after deallocating [a, end), following the loop's own steps. */
  ghost function Dealloc(tables: map<nat, nat>, pages: map<nat, Pte>, a: nat, end: nat): map<nat, Pte>
    decreases end - a
  {
    if a >= end then pages
    else if Pdx(a) !in tables then Dealloc(tables, pages, a + ENTRIES, end)
    else Dealloc(tables, pages - {a}, a + 1, end)
  }

  /** The loop looks at the entry of page `v`. */
  ghost predicate Visits(tables: map<nat, nat>, a: nat, end: nat, v: nat)
    decreases end - a
  {
    a < end &&
    if Pdx(a) !in tables then Visits(tables, a + ENTRIES, end, v)
    else v == a || Visits(tables, a + 1, end, v)
  }

  lemma {:induction false} DeallocAt(tables: map<nat, nat>, pages: map<nat, Pte>, a: nat, end: nat, v: nat)
    ensures PteOf(Dealloc(tables, pages, a, end), v) ==
            if Visits(tables, a, end, v) then Absent else PteOf(pages, v)
    ensures v in Dealloc(tables, pages, a, end) <==> v in pages && !Visits(tables, a, end, v)
    decreases end - a
  {
    if a < end {
      if Pdx(a) !in tables {
        DeallocAt(tables, pages, a + ENTRIES, end, v);
      } else {
        DeallocAt(tables, pages - {a}, a + 1, end, v);
      }
    }
  }

  lemma {:induction false} VisitsRange(tables: map<nat, nat>, a: nat, end: nat, v: nat)
    requires Visits(tables, a, end, v)
    ensures a <= v < end
    decreases end - a
  {
    if Pdx(a) !in tables {
      VisitsRange(tables, a + ENTRIES, end, v);
    } else if v != a {
      VisitsRange(tables, a + 1, end, v);
    }
  }

  /** From a table boundary, or from inside an existing table, nothing with a table is missed. */
  lemma {:induction false} VisitsAll(tables: map<nat, nat>, a: nat, end: nat, v: nat)
    requires Ptx(a) == 0 || Pdx(a) in tables
    requires a <= v < end && Pdx(v) in tables
    ensures Visits(tables, a, end, v)
    decreases end - a
  {
    if Pdx(a) !in tables {
      assert v >= a + ENTRIES;
      VisitsAll(tables, a + ENTRIES, end, v);
    } else if v != a {
      VisitsAll(tables, a + 1, end, v);
    }
  }

  /** The first directory slot from `i` on that has a table, or `hi`. */
  ghost function FirstSlot(tables: map<nat, nat>, i: nat, hi: nat): (r: nat)
    requires i <= hi
    ensures i <= r <= hi && (r < hi ==> r in tables)
    ensures forall k :: i <= k < r ==> k !in tables
    decreases hi - i
  {
    if i == hi || i in tables then i else FirstSlot(tables, i + 1, hi)
  }

  /** From inside a missing table the loop keeps its offset until it reaches a table: of that table
      it misses exactly the entries below the offset, and of later ones nothing. */
  lemma {:induction false} VisitsFromGap(tables: map<nat, nat>, a: nat, end: nat, hi: nat, v: nat)
    requires Pdx(a) !in tables && Pdx(a) < hi && Pdx(end) < hi && a <= v < end && Pdx(v) in tables
    ensures var i := FirstSlot(tables, Pdx(a), hi);
            Visits(tables, a, end, v) <==> v >= Vpn(i, Ptx(a))
    decreases end - a
  {
    var b := a + ENTRIES;
    var i := FirstSlot(tables, Pdx(a), hi);
    assert Pdx(b) == Pdx(a) + 1 && Ptx(b) == Ptx(a);
    assert i == FirstSlot(tables, Pdx(b), hi);
    assert Pdx(a) < i <= Pdx(v);
    if b >= end {
      VpnOf(b);
      assert i == Pdx(b) && Vpn(i, Ptx(a)) == b;
    } else if Pdx(b) !in tables {
      assert v >= b;
      VisitsFromGap(tables, b, end, hi, v);
    } else {
      VpnOf(b);
      assert Vpn(i, Ptx(a)) == b;
      if v >= b {
        VisitsAll(tables, b, end, v);
      } else if Visits(tables, b, end, v) {
        VisitsRange(tables, b, end, v);
      }
    }
  }

  /** Deallocation of [a, end) is complete: no page of the range stays mapped. */
  ghost predicate Complete(tables: map<nat, nat>, pages: map<nat, Pte>, a: nat, end: nat) {
    forall v :: a <= v < end ==> v !in Dealloc(tables, pages, a, end)
  }

  /** Some page is mapped below offset `Ptx(a)` of the first table above `a`. */
  ghost predicate MappedBelowOffset(tables: map<nat, nat>, pages: map<nat, Pte>, a: nat, end: nat, hi: nat)
    requires Pdx(a) < hi
  {
    var i := FirstSlot(tables, Pdx(a), hi);
    exists v :: v in pages && a <= v < end && Vpn(i, 0) <= v < Vpn(i, Ptx(a))
  }

  /** Deallocation is complete if and only if the start is on a table boundary, or its own table
      exists, or the first table above has nothing mapped below the start's offset. */
  lemma CompleteIff(tables: map<nat, nat>, pages: map<nat, Pte>, a: nat, end: nat, hi: nat)
    requires forall v :: v in pages ==> Pdx(v) in tables
    requires Pdx(a) < hi && Pdx(end) < hi
    ensures Complete(tables, pages, a, end) <==>
            Ptx(a) == 0 || Pdx(a) in tables || !MappedBelowOffset(tables, pages, a, end, hi)
  {
    hide Dealloc, Pdx, Ptx, Vpn;
    forall v: nat ensures v in Dealloc(tables, pages, a, end) <==> v in pages && !Visits(tables, a, end, v) {
      DeallocAt(tables, pages, a, end, v);
    }
    if Ptx(a) == 0 || Pdx(a) in tables {
      forall v: nat | v in pages && a <= v < end ensures Visits(tables, a, end, v) {
        VisitsAll(tables, a, end, v);
      }
    } else {
      var i := FirstSlot(tables, Pdx(a), hi);
      forall v: nat | v in pages && a <= v < end
        ensures Visits(tables, a, end, v) <==> v >= Vpn(i, Ptx(a))
        ensures v >= Vpn(i, 0)
      {
        VisitsFromGap(tables, a, end, hi, v);
        SlotAbove(tables, a, end, v, hi);
      }
      if MappedBelowOffset(tables, pages, a, end, hi) {
        var v :| v in pages && a <= v < end && Vpn(i, 0) <= v < Vpn(i, Ptx(a));
        assert v in Dealloc(tables, pages, a, end);
      }
    }
  }

  lemma SlotAbove(tables: map<nat, nat>, a: nat, end: nat, v: nat, hi: nat)
    requires Pdx(a) < hi && Pdx(end) < hi && a <= v < end && Pdx(v) in tables
    ensures v >= Vpn(FirstSlot(tables, Pdx(a), hi), 0)
  {
  }

  /** The failing input: page 0 of the second table survives a deallocation that starts at page 1,
      when the first table is missing. */
  lemma SkipsAMappedPage(f: nat, g: nat)
    ensures var tables, pages := map[1 as nat := f], map[ENTRIES := Present(g, PTE_W + PTE_U)];
            ENTRIES in Dealloc(tables, pages, 1, USER)
  {
    var tables, pages := map[1 as nat := f], map[ENTRIES := Present(g, PTE_W + PTE_U)];
    assert Pdx(1) == 0 && Pdx(ENTRIES) == 1;
    if Visits(tables, 1, USER, ENTRIES) {
      VisitsRange(tables, 1 + ENTRIES, USER, ENTRIES);
    }
    DeallocAt(tables, pages, 1, USER, ENTRIES);
  }

  /** The callers' case: when the mapped user pages are a prefix, deallocation is complete and
      leaves exactly the shorter prefix. */
  lemma PrefixDealloc(tables: map<nat, nat>, pages: map<nat, Pte>, a: nat, end: nat, n: nat, v: nat)
    requires forall u :: u in pages ==> Pdx(u) in tables
    requires end <= USER && n <= end && (forall u :: 0 <= u < USER ==> (u in pages <==> u < n))
    ensures v in Dealloc(tables, pages, a, end) <==> v in pages && (v < a || v >= USER)
    ensures v in pages && (v < a || v >= USER) ==> PteOf(Dealloc(tables, pages, a, end), v) == pages[v]
  {
    DeallocAt(tables, pages, a, end, v);
    if Visits(tables, a, end, v) {
      VisitsRange(tables, a, end, v);
    }
    if a <= v < end && v in pages {
      assert a in pages;
      VisitsAll(tables, a, end, v);
    }
  }
}
