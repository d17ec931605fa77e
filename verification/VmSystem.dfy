/**
 * All address spaces together.  Whatever sequence of process creations, forks, changes of size and
 * releases is run, every frame is on the free list, or belongs to exactly one space and has one use there,
 * or is the kernel stack of exactly one process, or has been lost by one of the failure exits that lose
 * pages; and the user pages of a process are exactly those below its size.
 */
module VmSystem {
  import opened Common
  import opened Break
  import opened VmSpec
  import opened VmCode

  ghost predicate Owned(spaces: map<nat, Space>, f: nat) { exists p :: p in spaces && Owns(spaces[p], f) }

  ghost predicate AllApart(spaces: map<nat, Space>) {
    forall p, q :: p in spaces && q in spaces && p != q ==> Apart(spaces[p], spaces[q])
  }

  ghost predicate FreeListOk(mem: Memory, free: seq<nat>) { NoDup(free) && forall f :: f in free ==> f in mem }

  ghost predicate AllOk(mem: Memory, free: seq<nat>, spaces: map<nat, Space>) {
    forall p :: p in spaces ==> SpaceOk(mem, spaces[p], free)
  }

  /** The frames are the free ones, the lost ones and the owned ones, and no frame is two of these. */
  ghost predicate Divided(free: seq<nat>, spaces: map<nat, Space>, lost: iset<nat>, frames: iset<nat>) {
    && (forall f :: f in frames <==> f in free || f in lost || Owned(spaces, f))
    && (forall f :: f in lost ==> f !in free && !Owned(spaces, f))
  }

  ghost predicate SysOk(mem: Memory, free: seq<nat>, spaces: map<nat, Space>, lost: iset<nat>, frames: iset<nat>) {
    FreeListOk(mem, free) && AllOk(mem, free, spaces) && AllApart(spaces) && Divided(free, spaces, lost, frames)
  }

  /** No frame is free and owned, or owned by two. */
  lemma OneHome(mem: Memory, free: seq<nat>, spaces: map<nat, Space>, p: nat, f: nat)
    requires AllOk(mem, free, spaces) && AllApart(spaces) && p in spaces && Owns(spaces[p], f)
    ensures f !in free && f in mem && forall q :: q in spaces && q != p ==> !Owns(spaces[q], f)
  {
    hide Owns;
    assert SpaceOk(mem, spaces[p], free);
    forall q | q in spaces && q != p ensures !Owns(spaces[q], f) {
      assert Apart(spaces[p], spaces[q]);
    }
  }

  /** A space none of whose frames changed, with another free list that has none of them. */
  lemma Elsewhere(mem: Memory, free: seq<nat>, sp: Space, mem': Memory, free': seq<nat>)
    requires SpaceOk(mem, sp, free) && FreeListOk(mem', free')
    requires forall f :: Owns(sp, f) ==> f in mem' && mem'[f] == mem[f] && f !in free'
    ensures SpaceOk(mem', sp, free')
  {
    forall f | f == sp.dir || OwnsTable(sp, f) ensures Owns(sp, f) {}
    RepFrame(mem, mem', sp);
    hide Rep, OneRole, Owns, NoDup;
    forall i | 0 <= i < |free'| ensures free'[i] in mem' {
      assert free'[i] in free';
    }
  }

  /** One space changes and trades frames with the free list only. */
  lemma Change(mem: Memory, free: seq<nat>, spaces: map<nat, Space>, lost: iset<nat>, frames: iset<nat>,
               p: nat, mem': Memory, free': seq<nat>, sp': Space)
    requires SysOk(mem, free, spaces, lost, frames) && p in spaces
    requires SpaceOk(mem', sp', free') && Conserved(spaces[p], free, sp', free')
    requires Untouched(mem, spaces[p], free, mem')
    ensures SysOk(mem', free', spaces[p := sp'], lost, frames)
  {
    hide Owns, Rep, OneRole, NoDup;
    FreePages(mem', sp', free');
    var spaces' := spaces[p := sp'];
    forall q | q in spaces && q != p ensures SpaceOk(mem', spaces[q], free') && Apart(sp', spaces[q]) {
      assert SpaceOk(mem, spaces[q], free) && Apart(spaces[p], spaces[q]);
      forall f | Owns(spaces[q], f) ensures f in mem' && mem'[f] == mem[f] && f !in free' && !Owns(sp', f) {
        OneHome(mem, free, spaces, q, f);
      }
      Elsewhere(mem, free, spaces[q], mem', free');
    }
    assert AllApart(spaces');
    OwnedChange(spaces, p, sp');
    DividedChange(free, spaces, lost, frames, p, free', sp');
  }

  lemma OwnedChange(spaces: map<nat, Space>, p: nat, sp': Space)
    requires p in spaces
    ensures forall f :: Owned(spaces[p := sp'], f) <==> Owns(sp', f) || Owned(spaces - {p}, f)
    ensures forall f :: Owned(spaces, f) <==> Owns(spaces[p], f) || Owned(spaces - {p}, f)
  {
    hide Owns;
    forall f ensures Owned(spaces[p := sp'], f) <==> Owns(sp', f) || Owned(spaces - {p}, f) {
      OwnedAt(spaces[p := sp'], p, f);
      assert spaces[p := sp'] - {p} == spaces - {p};
    }
    forall f ensures Owned(spaces, f) <==> Owns(spaces[p], f) || Owned(spaces - {p}, f) {
      OwnedAt(spaces, p, f);
    }
  }

  lemma OwnedAt(spaces: map<nat, Space>, p: nat, f: nat)
    requires p in spaces
    ensures Owned(spaces, f) <==> Owns(spaces[p], f) || Owned(spaces - {p}, f)
  {
    hide Owns;
    if Owned(spaces - {p}, f) {
      var q :| q in spaces - {p} && Owns((spaces - {p})[q], f);
      assert q in spaces && Owns(spaces[q], f);
    }
    if Owned(spaces, f) && !Owns(spaces[p], f) {
      var q :| q in spaces && Owns(spaces[q], f);
      assert q in spaces - {p} && Owns((spaces - {p})[q], f);
    }
  }

  lemma DividedChange(free: seq<nat>, spaces: map<nat, Space>, lost: iset<nat>, frames: iset<nat>,
                      p: nat, free': seq<nat>, sp': Space)
    requires Divided(free, spaces, lost, frames) && p in spaces && Conserved(spaces[p], free, sp', free')
    ensures Divided(free', spaces[p := sp'], lost, frames)
  {
    hide Owns, Owned;
    OwnedChange(spaces, p, sp');
  }

  /** A new space is made of free frames; some of them may be lost instead. */
  lemma Add(mem: Memory, free: seq<nat>, spaces: map<nat, Space>, lost: iset<nat>, frames: iset<nat>,
            c: Option<nat>, sp: Space, mem': Memory, free': seq<nat>, gone: iset<nat>)
    requires SysOk(mem, free, spaces, lost, frames) && Outside(mem, free, mem') && FreeListOk(mem', free')
    requires c.Some? ==> c.value !in spaces && SpaceOk(mem', sp, free')
    requires forall f :: f in free <==> f in free' || f in gone || (c.Some? && Owns(sp, f))
    requires forall f :: f in gone ==> f !in free' && !(c.Some? && Owns(sp, f))
    ensures SysOk(mem', free', if c.Some? then spaces[c.value := sp] else spaces, lost + gone, frames)
  {
    hide Owns, Rep, OneRole, NoDup;
    forall q | q in spaces ensures SpaceOk(mem', spaces[q], free') && (c.Some? ==> Apart(sp, spaces[q])) {
      assert SpaceOk(mem, spaces[q], free);
      forall f | Owns(spaces[q], f) ensures f in mem' && mem'[f] == mem[f] && f !in free' && !(c.Some? && Owns(sp, f)) {
        OneHome(mem, free, spaces, q, f);
      }
      Elsewhere(mem, free, spaces[q], mem', free');
    }
    if c.Some? {
      OwnedAdd(spaces, c.value, sp);
    }
    DividedAdd(free, spaces, lost, frames, c, sp, free', gone);
  }

  lemma OwnedAdd(spaces: map<nat, Space>, c: nat, sp: Space)
    requires c !in spaces
    ensures forall f :: Owned(spaces[c := sp], f) <==> Owns(sp, f) || Owned(spaces, f)
  {
    hide Owns;
    forall f ensures Owned(spaces[c := sp], f) <==> Owns(sp, f) || Owned(spaces, f) {
      OwnedAt(spaces[c := sp], c, f);
      assert spaces[c := sp] - {c} == spaces;
    }
  }

  lemma DividedAdd(free: seq<nat>, spaces: map<nat, Space>, lost: iset<nat>, frames: iset<nat>,
                   c: Option<nat>, sp: Space, free': seq<nat>, gone: iset<nat>)
    requires Divided(free, spaces, lost, frames)
    requires forall f :: Owned(spaces, f) ==> f !in free
    requires c.Some? ==> forall f :: Owned(spaces[c.value := sp], f) <==> Owns(sp, f) || Owned(spaces, f)
    requires forall f :: f in free <==> f in free' || f in gone || (c.Some? && Owns(sp, f))
    requires forall f :: f in gone ==> f !in free' && !(c.Some? && Owns(sp, f))
    ensures Divided(free', if c.Some? then spaces[c.value := sp] else spaces, lost + gone, frames)
  {
    hide Owns, Owned;
  }

  /** A space goes, and all its frames are free. */
  lemma Remove(mem: Memory, free: seq<nat>, spaces: map<nat, Space>, lost: iset<nat>, frames: iset<nat>,
               p: nat, mem': Memory, free': seq<nat>)
    requires SysOk(mem, free, spaces, lost, frames) && p in spaces && FreeListOk(mem', free')
    requires Untouched(mem, spaces[p], free, mem') && forall f :: f in free' <==> f in free || Owns(spaces[p], f)
    ensures SysOk(mem', free', spaces - {p}, lost, frames)
  {
    hide Owns, Rep, OneRole, NoDup;
    forall q | q in spaces - {p} ensures SpaceOk(mem', spaces[q], free') {
      assert SpaceOk(mem, spaces[q], free);
      forall f | Owns(spaces[q], f) ensures f in mem' && mem'[f] == mem[f] && f !in free' {
        OneHome(mem, free, spaces, q, f);
      }
      Elsewhere(mem, free, spaces[q], mem', free');
    }
    OwnedChange(spaces, p, spaces[p]);
    forall f ensures Owned(spaces - {p}, f) ==> f !in free' {
      if Owned(spaces - {p}, f) {
        var q :| q in spaces - {p} && Owns((spaces - {p})[q], f);
        OneHome(mem, free, spaces, q, f);
      }
    }
    DividedRemove(free, spaces, lost, frames, p, free');
  }

  lemma DividedRemove(free: seq<nat>, spaces: map<nat, Space>, lost: iset<nat>, frames: iset<nat>, p: nat,
                      free': seq<nat>)
    requires Divided(free, spaces, lost, frames) && p in spaces
    requires forall f :: f in free' <==> f in free || Owns(spaces[p], f)
    requires forall f :: Owned(spaces, f) <==> Owns(spaces[p], f) || Owned(spaces - {p}, f)
    ensures Divided(free', spaces - {p}, lost, frames)
  {
    hide Owns, Owned;
  }

  datatype Proc = Proc(dir: nat, sz: nat, kstack: nat)

  datatype Op = Create(p: nat) | Fork(p: nat, c: nat) | Grow(p: nat, n: int) | Reap(p: nat)

  /** The user pages of a process are exactly those below its size, unless growproc dropped them. */
  ghost predicate PagesOk(pr: Proc, sp: Space, dropped: bool) {
    pr.dir == sp.dir && pr.sz < KERNBASE && UserPrefix(sp, if dropped then 0 else PageUp(pr.sz))
  }

  ghost function Stacks(procs: map<nat, Proc>): iset<nat> { iset p | p in procs :: procs[p].kstack }

  /** Each process has a kernel stack of its own, which is a page and was not lost. */
  ghost predicate StacksOk(mem: Memory, procs: map<nat, Proc>, lost: iset<nat>) {
    && (forall p :: p in procs ==> procs[p].kstack in mem && procs[p].kstack !in lost)
    && (forall p, q :: p in procs && q in procs && p != q ==> procs[p].kstack != procs[q].kstack)
  }

  class System {
    const vm: Vm
    const kmap: seq<KMap>
    var procs: map<nat, Proc>
    ghost var spaces: map<nat, Space>
    var empty: set<nat>          // processes whose pages growproc dropped although it kept their size
    ghost var lost: iset<nat>          // frames that failure exits have dropped
    ghost const frames: iset<nat>

    ghost predicate Valid()
      reads this, vm
    {
      && KmapOk(kmap) && SysOk(vm.mem, vm.free, spaces, lost + Stacks(procs), frames)
      && StacksOk(vm.mem, procs, lost)
      && procs.Keys == spaces.Keys && empty <= procs.Keys
      && forall p :: p in procs ==> ProcOk(p)
    }

    ghost predicate ProcOk(p: nat)
      requires p in procs && procs.Keys == spaces.Keys
      reads this
    {
      PagesOk(procs[p], spaces[p], p in empty)
    }

    constructor (vm: Vm, kmap: seq<KMap>)
      requires KmapOk(kmap) && FreeListOk(vm.mem, vm.free)
      ensures Valid() && procs == map[] && lost == iset{} && this.vm == vm && this.kmap == kmap
    {
      this.vm, this.kmap := vm, kmap;
      procs, spaces, empty, lost := map[], map[], {}, iset{};
      frames := iset f | f in vm.free;
      new;
      assert Stacks(procs) == iset{};
      assert lost + Stacks(procs) == iset{};
    }

    /** allocproc's kernel stack and setupkvm, for a new process of size 0. */
    method CreateProc(p: nat) returns (ok: bool)
      requires Valid() && p !in procs
      modifies this, vm
      ensures Valid() && empty == old(empty)
      ensures ok <==> |old(vm.free)| >= 1 + KernelNeed(kmap)
      ensures if ok then procs.Keys == old(procs).Keys + {p} && procs[p].sz == 0 else procs == old(procs)
      ensures forall q :: q in old(procs) ==> q in procs && procs[q] == old(procs)[q]
      ensures lost != old(lost) <==> 1 < |old(vm.free)| < 1 + KernelNeed(kmap)
    {
      hide SysOk, SpaceOk, UserPrefix, TakenFrom, KernelNeed, Outside, Owns, KmapOk, FreeListOk, KernelPages, Sub,
        NoDup, Stacks, StacksOk;
      NeedPositive(kmap);
      var k := vm.Kalloc();
      if k.None? {
        return false;
      }
      ghost var free1 := vm.free;
      TakeStack(vm.mem, old(vm.free), spaces, lost + Stacks(procs), frames);
      Parts(vm.mem, vm.free, spaces, lost + Stacks(procs) + iset{k.value}, frames);
      var d; ghost var sp, gone;
      d, sp, gone := vm.SetupKvm(kmap);
      SetUp(old(vm.mem), free1, vm.mem, vm.free, kmap, d.Some?, sp, gone);
      Admitted(old(vm.mem), free1, spaces, procs, lost, frames, k.value, p,
               if d.Some? then Some(Proc(d.value, 0, k.value)) else None, sp, vm.mem, vm.free, gone);
      lost := lost + gone;
      if d.None? {
        vm.Kfree(k.value);
        return false;
      }
      spaces := spaces[p := sp];
      procs := procs[p := Proc(d.value, 0, k.value)];
      ok := true;
    }

    /** fork's allocproc and copyuvm: process `c` is a copy of `p` with a kernel stack of its own, which goes
        back when copyuvm fails.  A process without its pages makes copyuvm panic. */
    method ForkProc(p: nat, c: nat) returns (ok: bool)
      requires Valid() && p in procs && p !in empty && c !in procs
      modifies this, vm
      ensures Valid() && empty == old(empty)
      ensures ok <==>
              old(vm.free) != [] && CopyEnd(|old(vm.free)| - 1, KernelNeed(kmap), PageUp(old(procs)[p].sz)) == Done
      ensures if ok then procs.Keys == old(procs).Keys + {c} && procs[c].sz == procs[p].sz else procs == old(procs)
      ensures forall q :: q in old(procs) ==> q in procs && procs[q] == old(procs)[q]
      ensures ok ==> Copied(old(vm.mem), old(spaces)[p], vm.mem, spaces[c], PageUp(procs[p].sz))
      ensures lost != old(lost) <==>
              && old(vm.free) != []
              && (0 < |old(vm.free)| - 1 < KernelNeed(kmap) ||
                  CopyEnd(|old(vm.free)| - 1, KernelNeed(kmap), PageUp(old(procs)[p].sz)) == NoTable)
    {
      hide SysOk, SpaceOk, UserPrefix, TakenFrom, KernelNeed, Outside, Owns, KmapOk, FreeListOk, KernelPages, Sub,
        NoDup, Copied, CopyEnd, KernelPart, Stacks, StacksOk;
      assert ProcOk(p);
      var k := vm.Kalloc();
      if k.None? {
        return false;
      }
      ghost var free1 := vm.free;
      TakeStack(vm.mem, old(vm.free), spaces, lost + Stacks(procs), frames);
      Parts(vm.mem, vm.free, spaces, lost + Stacks(procs) + iset{k.value}, frames);
      var d; ghost var sp, gone;
      d, sp, gone := vm.CopyUvm(procs[p].dir, procs[p].sz, kmap, spaces[p]);
      FreePages(vm.mem, spaces[p], vm.free);
      IsFreeList(vm.mem, vm.free);
      Admitted(old(vm.mem), free1, spaces, procs, lost, frames, k.value, c,
               if d.Some? then Some(Proc(d.value, procs[p].sz, k.value)) else None, sp, vm.mem, vm.free, gone);
      lost := lost + gone;
      if d.None? {
        vm.Kfree(k.value);
        return false;
      }
      spaces := spaces[c := sp];
      procs := procs[c := Proc(d.value, procs[p].sz, k.value)];
      ok := true;
    }

    /** growproc.  The process loses its pages and keeps its size exactly when it gives up all of them. */
    method GrowProc(p: nat, n: int) returns (r: int)
      requires Valid() && p in procs && p !in empty && -INT <= n < INT
      modifies this, vm
      ensures Valid() && procs.Keys == old(procs).Keys && lost == old(lost)
      ensures forall q :: q in procs && q != p ==> procs[q] == old(procs)[q] && spaces[q] == old(spaces)[q]
      ensures var sz := old(procs)[p].sz;
              var g := Break.Grow(sz, n, HasRoom(old(spaces)[p], old(vm.free), sz, (sz + n) % UINT));
              r == (if g.ok then 0 else -1) && procs[p].sz == g.sz
      ensures empty == old(empty) + if n < 0 && old(procs)[p].sz + n == 0 then {p} else {}
    {
      hide SysOk, SpaceOk, UserPrefix, Owns, KmapOk, Conserved, Untouched, Kept, Break.Grow, NoDup, PagesOk, PageUp,
        Stacks, StacksOk, HasRoom;
      ghost var out := lost + Stacks(procs);
      Parts(vm.mem, vm.free, spaces, out, frames);
      assert ProcOk(p);
      PagesAre(procs[p], spaces[p]);
      var sz; ghost var sp;
      var d, old_ := procs[p].dir, procs[p].sz;
      ghost var room := HasRoom(spaces[p], vm.free, old_, (old_ + n) % UINT);
      r, sz, sp := vm.Growproc(d, old_, n, spaces[p]);
      Change(old(vm.mem), old(vm.free), spaces, out, frames, p, vm.mem, vm.free, sp);
      PagesAfter(d, old_, n, room, sp, procs[p].kstack);
      StackIsApart(old(vm.mem), old(vm.free), spaces, procs, lost, frames, p);
      SameStack(old(vm.mem), vm.mem, old(vm.free), spaces[p], procs, lost, p, Proc(d, sz, procs[p].kstack));
      spaces := spaces[p := sp];
      procs := procs[p := Proc(d, sz, procs[p].kstack)];
      if n < 0 && old_ + n == 0 {
        empty := empty + {p};
      }
    }

    /** wait's release of a process: kfree of its kernel stack, then freevm. */
    method ReapProc(p: nat)
      requires Valid() && p in procs
      modifies this, vm
      ensures Valid() && procs == old(procs) - {p} && lost == old(lost) && empty == old(empty) - {p}
    {
      hide SysOk, SpaceOk, UserPrefix, Owns, KmapOk, Untouched, FreeListOk, NoDup, Stacks, StacksOk;
      assert ProcOk(p);
      ghost var out := lost + Stacks(procs);
      DropStack(vm.mem, procs, lost, p);
      GiveStack(vm.mem, vm.free, spaces, out, frames, procs[p].kstack);
      vm.Kfree(procs[p].kstack);
      ghost var mem1, free1 := vm.mem, vm.free;
      Parts(mem1, free1, spaces, out - iset{procs[p].kstack}, frames);
      vm.FreeVm(procs[p].dir, spaces[p]);
      Freed(mem1, spaces[p], free1, vm.mem, vm.free);
      Remove(mem1, free1, spaces, out - iset{procs[p].kstack}, frames, p, vm.mem, vm.free);
      StackIsApart(mem1, free1, spaces, procs - {p}, lost, frames, p);
      StacksAfter(mem1, vm.mem, free1, spaces[p], procs - {p}, lost);
      spaces := spaces - {p};
      procs := procs - {p};
      empty := empty - {p};
      forall q | q in procs ensures ProcOk(q) {
        assert old(ProcOk(q));
      }
    }

    /** Any sequence of operations keeps the invariant.  It stops early only at an operation on a process
        that is not there, that is there already, or that has lost its pages. */
    method Run(ops: seq<Op>) returns (done: nat)
      requires Valid() && forall i :: 0 <= i < |ops| && ops[i].Grow? ==> -INT <= ops[i].n < INT
      modifies this, vm
      ensures Valid() && done <= |ops| && (done < |ops| ==> !Possible(ops[done]))
    {
      hide SysOk, UserPrefix, KmapOk, CopyEnd, KernelNeed, Copied;
      done := 0;
      while done < |ops|
        invariant done <= |ops| && Valid()
      {
        if done < |ops| && !Possible(ops[done]) {
          return;
        }
        match ops[done] {
          case Create(p) => var _ := CreateProc(p);
          case Fork(p, c) => var _ := ForkProc(p, c);
          case Grow(p, n) => var _ := GrowProc(p, n);
          case Reap(p) => ReapProc(p);
        }
        done := done + 1;
      }
    }

    predicate Possible(op: Op)
      reads this
    {
      match op
      case Create(p) => p !in procs
      case Fork(p, c) => p in procs && p !in empty && c !in procs
      case Grow(p, _) => p in procs && p !in empty
      case Reap(p) => p in procs
    }
  }

  lemma Parts(mem: Memory, free: seq<nat>, spaces: map<nat, Space>, lost: iset<nat>, frames: iset<nat>)
    requires SysOk(mem, free, spaces, lost, frames)
    ensures NoDup(free) && (forall f :: f in free ==> f in mem)
    ensures forall p :: p in spaces ==> SpaceOk(mem, spaces[p], free)
    ensures forall f :: f in lost ==> f !in free
  {
  }

  lemma PagesAre(pr: Proc, sp: Space)
    requires PagesOk(pr, sp, false)
    ensures pr.dir == sp.dir && pr.sz < KERNBASE && UserPrefix(sp, PageUp(pr.sz))
  {
  }

  lemma PagesAfter(d: nat, sz: nat, n: int, room: bool, sp: Space, kstack: nat)
    requires sz < KERNBASE && -INT <= n < INT && sp.dir == d
    requires UserPrefix(sp, PageUp(Break.Grow(sz, n, room).mapped))
    ensures PagesOk(Proc(d, Break.Grow(sz, n, room).sz, kstack), sp, n < 0 && sz + n == 0)
  {
    MappedIff(sz, n, room);
    if n < 0 && sz + n == 0 {
      GivesUpEverything(sz, room);
    }
  }

  lemma IsFreeList(mem: Memory, free: seq<nat>)
    requires NoDup(free) && forall f :: f in free ==> f in mem
    ensures FreeListOk(mem, free)
  {
  }

  /** What setupkvm leaves, said as Add needs it. */
  lemma SetUp(mem: Memory, free: seq<nat>, mem': Memory, free': seq<nat>, kmap: seq<KMap>, ok: bool, sp: Space,
              gone: iset<nat>)
    requires KmapOk(kmap) && NoDup(free') && Sub(free', free) && Outside(mem, free, mem')
    requires forall f :: f in free ==> f in mem
    requires ok ==> SpaceOk(mem', sp, free') && TakenFrom(sp, free', free)
    requires ok ==> sp.pages == KernelPages(kmap, |kmap|) && gone == iset{}
    requires !ok ==> free' == [] && forall f :: f in gone <==> f in free
    ensures FreeListOk(mem', free') && (ok ==> UserPrefix(sp, PageUp(0)))
    ensures forall f :: f in free <==> f in free' || f in gone || (ok && Owns(sp, f))
    ensures forall f :: f in gone ==> f in free && f !in free' && !(ok && Owns(sp, f))
  {
    hide Rep, OneRole, Owns, NoDup;
    if ok {
      CopyStart(mem', sp, mem', sp, kmap);
    }
  }

  lemma LostGrows(free: seq<nat>, lost: iset<nat>, gone: iset<nat>)
    requires (forall f :: f in gone ==> f in free) && forall f :: f in lost ==> f !in free
    ensures lost + gone != lost <==> gone != iset{}
  {
    if gone != iset{} {
      var f :| f in gone;
      assert f in lost + gone && f !in lost;
    }
  }

  lemma Freed(mem: Memory, sp: Space, free: seq<nat>, mem': Memory, free': seq<nat>)
    requires SpaceOk(mem, sp, free) && Untouched(mem, sp, free, mem') && NoDup(free')
    requires forall f :: f in free' <==> f in free || Owns(sp, f)
    ensures FreeListOk(mem', free')
  {
    hide Rep, OneRole, Owns, NoDup;
  }

  // ---------------------------------------------------------------- kernel stacks

  /** A page taken from the free list is neither free nor anybody's. */
  lemma TakeStack(mem: Memory, free: seq<nat>, spaces: map<nat, Space>, out: iset<nat>, frames: iset<nat>)
    requires SysOk(mem, free, spaces, out, frames) && free != []
    ensures SysOk(mem, free[1..], spaces, out + iset{free[0]}, frames)
    ensures free[0] in mem && free[0] !in out && free[0] !in free[1..]
  {
    hide Owns, AllOk, AllApart;
    assert free[0] in free;
    NoDupTail(free);
    assert FreeListOk(mem, free[1..]) by {
      forall f | f in free[1..] ensures f in mem { assert f in free; }
    }
    assert forall f :: f in free <==> f in free[1..] || f == free[0];
    Add(mem, free, spaces, out, frames, None, Space(0, map[], map[]), mem, free[1..], iset{free[0]})
      by { OutsideSame(mem, free); }
  }

  /** And one given back is free again. */
  lemma GiveStack(mem: Memory, free: seq<nat>, spaces: map<nat, Space>, out: iset<nat>, frames: iset<nat>, f: nat)
    requires SysOk(mem, free, spaces, out, frames) && f in out && f in mem
    ensures SysOk(mem[f := Junk], [f] + free, spaces, out - iset{f}, frames)
  {
    hide Owns, Rep, OneRole, NoDup;
    var mem', free' := mem[f := Junk], [f] + free;
    NoDupCons(f, free);
    forall q | q in spaces ensures SpaceOk(mem', spaces[q], free') {
      assert SpaceOk(mem, spaces[q], free);
      forall h | Owns(spaces[q], h) ensures h in mem' && mem'[h] == mem[h] && h !in free' {
        OneHome(mem, free, spaces, q, h);
        assert Owned(spaces, h);
      }
      Elsewhere(mem, free, spaces[q], mem', free');
    }
  }

  lemma NoDupCons(f: nat, free: seq<nat>)
    requires NoDup(free) && f !in free
    ensures NoDup([f] + free)
  {
  }

  /** The new stack `k` is nobody's, and what was lost meanwhile is nobody's stack. */
  lemma StackSets(mem: Memory, mem': Memory, free: seq<nat>, procs: map<nat, Proc>, lost: iset<nat>, gone: iset<nat>,
                  k: nat)
    requires StacksOk(mem, procs, lost) && Outside(mem, free, mem') && k in mem && k !in free
    requires k !in lost + Stacks(procs) && (forall f :: f in gone ==> f in free)
    requires forall f :: f in lost + Stacks(procs) + iset{k} ==> f !in free
    ensures StacksOk(mem', procs, lost + gone) && k in mem' && k !in lost + gone && k !in Stacks(procs)
    ensures StacksOk(mem'[k := Junk], procs, lost + gone)
    ensures lost + Stacks(procs) + iset{k} + gone - iset{k} == lost + gone + Stacks(procs)
    ensures lost + Stacks(procs) + iset{k} + gone == lost + gone + Stacks(procs) + iset{k}
    ensures k in lost + Stacks(procs) + iset{k} + gone
  {
    forall p | p in procs ensures procs[p].kstack in mem' && procs[p].kstack !in lost + gone {
      assert procs[p].kstack in Stacks(procs);
    }
  }

  lemma NewStack(mem: Memory, procs: map<nat, Proc>, lost: iset<nat>, p: nat, pr: Proc)
    requires StacksOk(mem, procs, lost) && p !in procs
    requires pr.kstack in mem && pr.kstack !in lost && pr.kstack !in Stacks(procs)
    ensures StacksOk(mem, procs[p := pr], lost)
    ensures lost + Stacks(procs[p := pr]) == lost + Stacks(procs) + iset{pr.kstack}
  {
    forall q | q in procs ensures procs[q].kstack != pr.kstack {
      assert procs[q].kstack in Stacks(procs);
    }
    var procs' := procs[p := pr];
    assert procs'[p].kstack == pr.kstack;
    forall f ensures f in Stacks(procs') <==> f in Stacks(procs) + iset{pr.kstack} {
      if f in Stacks(procs) {
        var q :| q in procs && procs[q].kstack == f;
        assert procs'[q].kstack == f;
      }
      if f in Stacks(procs') {
        var q :| q in procs' && procs'[q].kstack == f;
        assert q != p ==> procs[q].kstack == f;
      }
    }
    assert Stacks(procs') == Stacks(procs) + iset{pr.kstack};
  }

  /** A process with the new stack `k` is admitted with its space `sp`, or fails and gives the stack back. */
  lemma Admitted(mem: Memory, free: seq<nat>, spaces: map<nat, Space>, procs: map<nat, Proc>, lost: iset<nat>,
                 frames: iset<nat>, k: nat, c: nat, pr: Option<Proc>, sp: Space, mem': Memory, free': seq<nat>,
                 gone: iset<nat>)
    requires SysOk(mem, free, spaces, lost + Stacks(procs) + iset{k}, frames) && StacksOk(mem, procs, lost)
    requires k in mem && k !in lost + Stacks(procs) && procs.Keys == spaces.Keys && c !in procs
    requires Outside(mem, free, mem') && FreeListOk(mem', free')
    requires pr.Some? ==> pr.value.kstack == k && SpaceOk(mem', sp, free')
    requires forall f :: f in free <==> f in free' || f in gone || (pr.Some? && Owns(sp, f))
    requires forall f :: f in gone ==> f !in free' && !(pr.Some? && Owns(sp, f))
    ensures lost + gone != lost <==> gone != iset{}
    ensures pr.Some? ==>
              var procs' := procs[c := pr.value];
              && SysOk(mem', free', spaces[c := sp], lost + gone + Stacks(procs'), frames)
              && StacksOk(mem', procs', lost + gone)
    ensures pr.None? ==>
              && k in mem' && SysOk(mem'[k := Junk], [k] + free', spaces, lost + gone + Stacks(procs), frames)
              && StacksOk(mem'[k := Junk], procs, lost + gone)
  {
    hide SysOk, SpaceOk, Outside, Owns, FreeListOk, Stacks, StacksOk;
    var out := lost + Stacks(procs) + iset{k};
    Parts(mem, free, spaces, out, frames);
    LostGrows(free, lost, gone);
    Add(mem, free, spaces, out, frames, if pr.Some? then Some(c) else None, sp, mem', free', gone);
    StackSets(mem, mem', free, procs, lost, gone, k);
    if pr.Some? {
      NewStack(mem', procs, lost + gone, c, pr.value);
    } else {
      GiveStack(mem', free', spaces, out + gone, frames, k);
    }
  }

  lemma SameStack(mem: Memory, mem': Memory, free: seq<nat>, sp: Space, procs: map<nat, Proc>, lost: iset<nat>,
                  p: nat, pr: Proc)
    requires StacksOk(mem, procs, lost) && Untouched(mem, sp, free, mem') && p in procs && pr.kstack == procs[p].kstack
    requires forall q :: q in procs ==> procs[q].kstack !in free && !Owns(sp, procs[q].kstack)
    ensures StacksOk(mem', procs[p := pr], lost) && Stacks(procs[p := pr]) == Stacks(procs)
  {
    hide Owns;
    var procs' := procs[p := pr];
    forall q | q in procs ensures procs'[q].kstack == procs[q].kstack {}
    assert procs'.Keys == procs.Keys;
  }

  lemma StacksAfter(mem: Memory, mem': Memory, free: seq<nat>, sp: Space, procs: map<nat, Proc>, lost: iset<nat>)
    requires StacksOk(mem, procs, lost) && Untouched(mem, sp, free, mem')
    requires forall q :: q in procs ==> procs[q].kstack !in free && !Owns(sp, procs[q].kstack)
    ensures StacksOk(mem', procs, lost)
  {
    hide Owns;
  }

  lemma DropStack(mem: Memory, procs: map<nat, Proc>, lost: iset<nat>, p: nat)
    requires StacksOk(mem, procs, lost) && p in procs
    ensures procs[p].kstack in mem && procs[p].kstack in lost + Stacks(procs)
    ensures StacksOk(mem[procs[p].kstack := Junk], procs - {p}, lost)
    ensures lost + Stacks(procs) - iset{procs[p].kstack} == lost + Stacks(procs - {p})
  {
    var k := procs[p].kstack;
    forall f ensures f in Stacks(procs) - iset{k} <==> f in Stacks(procs - {p}) {
      if f in Stacks(procs) - iset{k} {
        var q :| q in procs && procs[q].kstack == f;
        assert q in procs - {p} && (procs - {p})[q].kstack == f;
      }
      if f in Stacks(procs - {p}) {
        var q :| q in procs - {p} && (procs - {p})[q].kstack == f;
        assert q in procs && procs[q].kstack == f;
      }
    }
  }

  /** A kernel stack is neither free nor part of any space. */
  lemma StackIsApart(mem: Memory, free: seq<nat>, spaces: map<nat, Space>, procs: map<nat, Proc>, lost: iset<nat>,
                     frames: iset<nat>, p: nat)
    requires SysOk(mem, free, spaces, lost + Stacks(procs), frames) && p in spaces
    ensures forall q :: q in procs ==> procs[q].kstack !in free && !Owns(spaces[p], procs[q].kstack)
  {
    hide Owns;
    forall q | q in procs ensures procs[q].kstack !in free && !Owns(spaces[p], procs[q].kstack) {
      assert procs[q].kstack in Stacks(procs);
      assert Owns(spaces[p], procs[q].kstack) ==> Owned(spaces, procs[q].kstack);
    }
  }
}
