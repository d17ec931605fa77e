/**
 * The directory code: dirlookup, dirlink and isdirempty scan slots; create, unlink and link change the
 * tree.  In a linked directory each is the corresponding steps of DirTree and keeps its invariant; create
 * and link lose it exactly when they add a name to a directory that has been removed.
 */
module DirCode {
  import opened Common
  import opened DirTree

  class Dirs {
    var nodes: map<nat, Node>
    ghost var linking: multiset<nat>

    ghost function St(): State
      reads this
    {
      State(nodes, linking)
    }

    /** The tree is as it should be. */
    ghost predicate Sane()
      reads this
    {
      Inv(St()) && Bare(St())
    }

    /** dirlookup's scan. */
    method Dirlookup(dp: nat, name: string) returns (r: Option<nat>)
      requires dp in nodes && nodes[dp].typ == Dir      // else panic
      ensures r == Lookup(nodes[dp].entries, name)
      ensures r.None? <==> forall k :: 0 <= k < |nodes[dp].entries| ==> !Names(nodes[dp].entries[k], name)
    {
      var es := nodes[dp].entries;
      var k := 0;
      while k < |es|
        invariant k <= |es| && Lookup(es, name) == Lookup(es, name, k)
      {
        if es[k].inum != 0 && es[k].name == name {
          return Some(k);
        }
        k := k + 1;
      }
      return None;
    }

    /** dirlink: refuses a name that is there, else writes the first empty slot. */
    method Dirlink(dp: nat, name: string, inum: nat) returns (ok: bool)
      requires dp in nodes && nodes[dp].typ == Dir
      modifies this`nodes
      ensures ok <==> Lookup(old(nodes)[dp].entries, name).None?
      ensures nodes ==
              if ok then old(nodes)[dp := old(nodes)[dp].(entries := Linked(old(nodes)[dp].entries, name, inum))]
              else old(nodes)
    {
      var found := Dirlookup(dp, name);
      if found.Some? {
        return false;
      }
      var es := nodes[dp].entries;
      var k := 0;
      while k < |es| && es[k].inum != 0
        invariant k <= |es| && EmptySlot(es) == EmptySlot(es, k)
      {
        k := k + 1;
      }
      nodes := nodes[dp := nodes[dp].(entries := Put(es, k, Entry(inum, name)))];
      return true;
    }

    /** isdirempty. */
    method Isdirempty(dp: nat) returns (empty: bool)
      requires dp in nodes
      ensures empty <==> forall k :: 2 <= k < |nodes[dp].entries| ==> nodes[dp].entries[k].inum == 0
    {
      var es := nodes[dp].entries;
      var k := 2;
      while k < |es|
        invariant 2 <= k && forall j :: 2 <= j < k && j < |es| ==> es[j].inum == 0
      {
        if es[k].inum != 0 {
          return false;
        }
        k := k + 1;
      }
      return true;
    }

    /** mkfs's root. */
    constructor ()
      ensures Sane() && Boot(St())
    {
      nodes := map[ROOT := Node(Dir, 1, [Entry(ROOT, "."), Entry(ROOT, "..")])];
      linking := multiset{};
      new;
      BootInv(St());
    }

    /** create in directory `dp`; `x` is the number ialloc gives.  The directory may have been removed:
        the code does not look, and then the invariant is lost exactly when a name is added. */
    method Create(dp: nat, name: string, typ: Type, x: nat) returns (r: Outcome)
      requires IsDir(St(), dp) && x != 0 && x !in nodes
      modifies this`nodes
      ensures Lookup(old(nodes)[dp].entries, name).None? ==>
                r == Got(x) && nodes == Created(old(St()), dp, name, typ, x).nodes
      ensures Lookup(old(nodes)[dp].entries, name).Some? ==>
                && nodes == old(nodes)
                && var y := nodes[dp].entries[Lookup(nodes[dp].entries, name).value].inum;
                && (r.Panic? <==> y !in nodes)
                && (r.Got? ==> r == Got(y))
                && (r.Got? <==> y in nodes && nodes[y].typ == File && typ == File)
      ensures old(Sane()) ==>
                && (Sane() <==> Lookup(old(nodes)[dp].entries, name).Some? || old(nodes)[dp].nlink > 0)
                && (r.Panic? ==> RemovedDir(old(St()), dp) && name == "..")
    {
      hide Inv, Bare;
      var found := Dirlookup(dp, name);
      if found.Some? {
        var y := nodes[dp].entries[found.value].inum;
        if Sane() { GoneIsDotDot(St(), dp, found.value); }
        if y !in nodes {
          return Panic;                                // ilock: no type
        }
        if typ == File && nodes[y].typ == File {
          return Got(y);
        }
        return Refused;
      }
      if Sane() { CreateSane(St(), dp, name, typ, x); }
      nodes := nodes[x := Node(typ, 1, [])];
      if typ == Dir {
        nodes := nodes[dp := nodes[dp].(nlink := nodes[dp].nlink + 1)];
        var dot := Dirlink(x, ".", x);
        var dotdot := Dirlink(x, "..", dp);
        NewDirectory(x, dp);
        assert nodes[x] == NewNode(typ, x, dp);
      }
      var ok := Dirlink(dp, name, x);
      assert nodes == Created(old(St()), dp, name, typ, x).nodes;
      return Got(x);
    }

    /** unlink from directory `dp`, removed or not.  Its panics, for an inode that is gone or has no link
        left, cannot happen where the invariant holds. */
    method Unlink(dp: nat, name: string) returns (r: Outcome)
      requires IsDir(St(), dp)
      modifies this`nodes
      ensures r == Unlinking(old(nodes), dp, name)
      ensures nodes == if r.Got? then Removed(old(nodes), dp, name) else old(nodes)
      ensures old(Sane()) ==>
                && Sane() && !r.Panic? && (r.Got? <==> Enabled(old(St()), Event.Unlink(dp, name)))
                && (r.Got? ==> St() == Next(old(St()), Event.Unlink(dp, name)))
    {
      hide Inv, Bare;
      if name == "." || name == ".." {
        return Refused;
      }
      var off := Dirlookup(dp, name);
      if off.None? {
        return Refused;
      }
      var x := nodes[dp].entries[off.value].inum;
      if Sane() { UnlinkSane(St(), dp, name); }
      if x !in nodes || nodes[x].nlink < 1 {
        return Panic;                                  // ilock: no type, or unlink: nlink < 1
      }
      if nodes[x].typ == Dir {
        var empty := Isdirempty(x);
        if !empty {
          return Refused;
        }
      }
      nodes := nodes[dp := nodes[dp].(entries := nodes[dp].entries[off.value := Entry(0, "")])];
      if nodes[x].typ == Dir {
        nodes := nodes[dp := nodes[dp].(nlink := Less(nodes[dp].nlink))];
      }
      nodes := nodes[x := nodes[x].(nlink := Less(nodes[x].nlink))];
      assert nodes == Removed(old(nodes), dp, name);
      return Got(x);
    }

    /** sys_link of inode `x` as `name` in directory `dp`: both of its steps, or no change at all.  The
        invariant is lost exactly when the name goes into a removed directory. */
    method Link(x: nat, dp: nat, name: string) returns (ok: bool)
      requires IsDir(St(), dp) && x in nodes
      modifies this`nodes, this`linking
      ensures linking == old(linking)
      ensures ok <==> old(nodes)[x].typ != Dir && Lookup(old(nodes)[dp].entries, name).None?
      ensures ok ==> nodes == LinkedIn(Raised(old(St()), x), dp, name, x).nodes
      ensures !ok ==> nodes == old(nodes)
      ensures old(Sane()) ==> (Sane() <==> !ok || old(nodes)[dp].nlink > 0)
    {
      hide Inv, Bare, Lookup, Linked;
      if nodes[x].typ == Dir {
        return false;
      }
      ghost var s0, m0 := St(), linking;
      ghost var s1 := Raised(s0, x);
      if Sane() { LinkBegins(s0, x); }
      nodes := nodes[x := nodes[x].(nlink := nodes[x].nlink + 1)];
      linking := s1.linking;
      assert nodes == s1.nodes;
      ok := Dirlink(dp, name, x);
      linking := m0;
      if ok {
        BackAgain(s1, dp, name, x, m0);
        if Inv(s0) && Bare(s0) { LinkSane(s1, dp, name, x); }
        assert St() == LinkedIn(s1, dp, name, x);
      } else {
        nodes := nodes[x := nodes[x].(nlink := nodes[x].nlink - 1)];
        assert nodes == s0.nodes;
      }
    }
  }

  datatype Outcome = Got(inum: nat) | Refused | Panic

  /** The state between sys_link's two steps. */
  ghost function Raised(s: State, x: nat): State
    requires x in s.nodes
  {
    State(s.nodes[x := s.nodes[x].(nlink := s.nodes[x].nlink + 1)], s.linking + multiset{x})
  }

  /** How unlink ends: with the inode it takes the name from, refused, or in a panic. */
  function Unlinking(nodes: map<nat, Node>, dp: nat, name: string): Outcome
    requires dp in nodes
  {
    if name == "." || name == ".." || Lookup(nodes[dp].entries, name).None? then Refused
    else
      var x := nodes[dp].entries[Lookup(nodes[dp].entries, name).value].inum;
      if x !in nodes || nodes[x].nlink < 1 then Panic
      else if nodes[x].typ == Dir && !IsEmpty(nodes[x].entries) then Refused
      else Got(x)
  }

  /** The slot is cleared, a directory takes a link from its parent, and the inode loses one. */
  function Removed(nodes: map<nat, Node>, dp: nat, name: string): map<nat, Node>
    requires dp in nodes && Unlinking(nodes, dp, name).Got?
  {
    var k, x := Lookup(nodes[dp].entries, name).value, Unlinking(nodes, dp, name).inum;
    var d := nodes[dp].(entries := nodes[dp].entries[k := Entry(0, "")]);
    var nodes1 := nodes[dp := if nodes[x].typ == Dir then d.(nlink := Less(d.nlink)) else d];
    nodes1[x := nodes1[x].(nlink := Less(nodes1[x].nlink))]
  }

  lemma GoneIsDotDot(s: State, d: nat, k: nat)
    requires Inv(s) && Bare(s) && IsDir(s, d) && k < |s.nodes[d].entries| && s.nodes[d].entries[k].inum != 0
    ensures s.nodes[d].entries[k].inum in s.nodes || (RemovedDir(s, d) && s.nodes[d].entries[k].name == "..")
  {
    hide Inv, Bare;
    SlotNames(s, d, k);
    DotDotIsSlotOne(s, d, k);
  }

  lemma CreateSane(s: State, dp: nat, name: string, typ: Type, x: nat)
    requires Inv(s) && Bare(s) && IsDir(s, dp) && x != 0 && x !in s.nodes && Lookup(s.nodes[dp].entries, name).None?
    ensures var s' := Created(s, dp, name, typ, x); Inv(s') && Bare(s') <==> s.nodes[dp].nlink > 0
  {
    hide Inv, Bare;
    CreateKeepsIff(s, dp, name, typ, x);
    if s.nodes[dp].nlink > 0 { BareStep(s, Event.Create(dp, name, typ, x)); }
  }

  lemma UnlinkSane(s: State, dp: nat, name: string)
    requires Inv(s) && Bare(s) && IsDir(s, dp) && name != "." && name != ".." && Lookup(s.nodes[dp].entries, name).Some?
    ensures !Unlinking(s.nodes, dp, name).Panic?
    ensures Unlinking(s.nodes, dp, name).Got? <==> Enabled(s, Event.Unlink(dp, name))
    ensures Unlinking(s.nodes, dp, name).Got? ==>
              var s' := Next(s, Event.Unlink(dp, name));
              Inv(s') && Bare(s') && s' == State(Removed(s.nodes, dp, name), s.linking)
  {
    hide Inv, Bare;
    var k := Lookup(s.nodes[dp].entries, name).value;
    SlotNames(s, dp, k);
    NamedIsLive(s, dp, k);
    var e := Event.Unlink(dp, name);
    NamedNotFree(s, dp, k, s.nodes[dp].entries[k].inum);
    if Enabled(s, e) {
      StepKeeps(s, e);
      BareStep(s, e);
    }
  }

  lemma LinkBegins(s: State, x: nat)
    requires Inv(s) && Bare(s) && x in s.nodes && s.nodes[x].typ != Dir
    ensures Inv(Raised(s, x)) && Bare(Raised(s, x)) && x in Raised(s, x).linking
  {
    hide Inv, Bare;
    StepKeeps(s, LinkBegin(x));
    BareStep(s, LinkBegin(x));
  }

  lemma BackAgain(s: State, dp: nat, name: string, x: nat, m: multiset<nat>)
    requires dp in s.nodes && s.linking == m + multiset{x}
    ensures LinkedIn(s, dp, name, x).linking == m
  {
    assert m + multiset{x} - multiset{x} == m;
  }

  lemma LinkSane(s: State, dp: nat, name: string, x: nat)
    requires Inv(s) && Bare(s) && IsDir(s, dp) && x in s.linking && Lookup(s.nodes[dp].entries, name).None?
    ensures var s' := LinkedIn(s, dp, name, x); Inv(s') && Bare(s') <==> s.nodes[dp].nlink > 0
  {
    hide Inv, Bare;
    LinkKeepsIff(s, dp, name, x);
    if s.nodes[dp].nlink > 0 { BareStep(s, LinkEnd(dp, name, x)); }
  }

  lemma DotDotIsSlotOne(s: State, d: nat, k: nat)
    requires Bare(s) && IsDir(s, d) && k < |s.nodes[d].entries| && s.nodes[d].entries[k].inum != 0
    ensures RemovedDir(s, d) && k == 1 ==> s.nodes[d].entries[k].name == ".."
  {
    assert RemovedDir(s, d) ==> RemovedOk(s, d);
  }

  /** A name other than the dots is in a directory that is still linked. */
  lemma NamedIsLive(s: State, d: nat, k: nat)
    requires Bare(s) && IsDir(s, d) && k < |s.nodes[d].entries| && s.nodes[d].entries[k].inum != 0
    requires s.nodes[d].entries[k].name != "." && s.nodes[d].entries[k].name != ".."
    ensures LiveDir(s, d)
  {
    assert RemovedDir(s, d) ==> RemovedOk(s, d);
  }

  /** The two dirlinks into an empty directory. */
  lemma NewDirectory(x: nat, dp: nat)
    ensures Linked(Linked([], ".", x), "..", dp) ==
            if x != 0 then [Entry(x, "."), Entry(dp, "..")] else [Entry(dp, "..")]
  {
    var one := [Entry(x, ".")];
    assert Linked([], ".", x) == one;
    assert x != 0 ==> EmptySlot(one, 1) == 1;
  }
}
