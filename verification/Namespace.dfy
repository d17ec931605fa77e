/** What the operations of the directory tree do to names: which name of which directory gives which inode, before and
    after each. */
module Namespace {
  import opened Common
  import opened DirTree

  /** The inode that directory `d` gives a name. */
  function Given(nodes: map<nat, Node>, d: nat, name: string): Option<nat> {
    if d in nodes && nodes[d].typ == Dir && Lookup(nodes[d].entries, name).Some?
    then Some(nodes[d].entries[Lookup(nodes[d].entries, name).value].inum) else None
  }

  lemma LookupIs(es: seq<Entry>, name: string, k: nat)
    requires k < |es| && Names(es[k], name) && forall j :: 0 <= j < k ==> !Names(es[j], name)
    ensures Lookup(es, name) == Some(k)
  {
  }

  lemma LookupNone(es: seq<Entry>, name: string)
    requires forall j :: 0 <= j < |es| ==> !Names(es[j], name)
    ensures Lookup(es, name) == None
  {
  }

  /** A slot that has the name neither before nor after a change makes no difference to the name. */
  lemma LookupElsewhere(es: seq<Entry>, es': seq<Entry>, k: nat, name: string)
    requires k < |es'| && (|es'| == |es| || |es'| == k + 1 == |es| + 1)
    requires !Names(es'[k], name) && (k < |es| ==> !Names(es[k], name))
    requires forall j :: 0 <= j < |es| && j != k ==> es'[j] == es[j]
    ensures Lookup(es', name) == Lookup(es, name) && (Lookup(es, name).Some? ==> Lookup(es, name).value != k)
  {
    var r := Lookup(es, name);
    if r.Some? {
      LookupIs(es', name, r.value);
    } else {
      forall j | 0 <= j < |es'| ensures !Names(es'[j], name) {
        assert j != k ==> j < |es|;
      }
      LookupNone(es', name);
    }
  }

  /** A name put into a directory that lacks it. */
  lemma LinkedGives(es: seq<Entry>, name: string, x: nat, n: string)
    requires x != 0 && Lookup(es, name).None?
    ensures var es' := Linked(es, name, x);
            if n == name then Lookup(es', n).Some? && es'[Lookup(es', n).value].inum == x
            else Lookup(es', n) == Lookup(es, n) && (Lookup(es, n).Some? ==>
                   es'[Lookup(es, n).value].inum == es[Lookup(es, n).value].inum)
  {
    var k, es' := EmptySlot(es), Linked(es, name, x);
    assert es'[k] == Entry(x, name) && forall j :: 0 <= j < |es| && j != k ==> es'[j] == es[j];
    if n == name {
      LookupIs(es', name, k);
    } else {
      LookupElsewhere(es, es', k, n);
    }
  }

  /** create: the new name gives the new inode, which is of the type asked for and, if a directory, has itself and its
      parent under the dots; no other name changes. */
  lemma CreateNames(s: State, dp: nat, name: string, typ: Type, x: nat, d: nat, n: string)
    requires dp in s.nodes && s.nodes[dp].typ == Dir && dp != 0 && x != 0 && x !in s.nodes
    requires Lookup(s.nodes[dp].entries, name).None?
    ensures var s' := Created(s, dp, name, typ, x);
            && s'.nodes.Keys == s.nodes.Keys + {x} && s'.nodes[x].typ == typ && s'.nodes[x].nlink == 1
            && (d in s.nodes ==> s'.nodes[d].typ == s.nodes[d].typ)
            && (d in s.nodes && d != dp ==> s'.nodes[d] == s.nodes[d])
            && s'.nodes[dp].nlink == s.nodes[dp].nlink + (if typ == Dir then 1 else 0)
            && Given(s'.nodes, d, n) ==
                 if d == dp && n == name then Some(x)
                 else if d == x then (if typ != Dir then None
                                      else if n == "." then Some(x) else if n == ".." then Some(dp) else None)
                 else Given(s.nodes, d, n)
  {
    var s' := Created(s, dp, name, typ, x);
    if d == dp {
      LinkedGives(s.nodes[dp].entries, name, x, n);
    } else if d == x && typ == Dir {
      var es := s'.nodes[x].entries;
      assert es == [Entry(x, "."), Entry(dp, "..")];
      if n == "." {
        LookupIs(es, n, 0);
      } else if n == ".." {
        LookupIs(es, n, 1);
      }
    }
  }

  /** The second step of link: the new name gives the inode, and no other name changes. */
  lemma LinkNames(s: State, dp: nat, name: string, x: nat, d: nat, n: string)
    requires dp in s.nodes && s.nodes[dp].typ == Dir && x != 0 && Lookup(s.nodes[dp].entries, name).None?
    ensures var s' := LinkedIn(s, dp, name, x);
            && s'.nodes.Keys == s.nodes.Keys && s'.linking == s.linking - multiset{x}
            && (d in s.nodes ==> s'.nodes[d].typ == s.nodes[d].typ && s'.nodes[d].nlink == s.nodes[d].nlink)
            && Given(s'.nodes, d, n) == if d == dp && n == name then Some(x) else Given(s.nodes, d, n)
  {
    if d == dp {
      LinkedGives(s.nodes[dp].entries, name, x, n);
    }
  }

  /** unlink: the name is gone, its inode has one link less, a directory takes one from its parent too, and no other
      name changes. */
  lemma UnlinkNames(s: State, dp: nat, name: string, d: nat, n: string)
    requires Inv(s) && Enabled(s, Unlink(dp, name))
    ensures Given(s.nodes, dp, name).Some?
    ensures var s', x := Next(s, Unlink(dp, name)), Given(s.nodes, dp, name).value;
            && s'.nodes.Keys == s.nodes.Keys && x in s.nodes && s'.linking == s.linking
            && (d in s.nodes ==>
                  && s'.nodes[d].typ == s.nodes[d].typ
                  && s'.nodes[d].nlink == s.nodes[d].nlink - (if d == x then 1 else 0)
                                          - (if d == dp && s.nodes[x].typ == Dir then 1 else 0))
            && Given(s'.nodes, d, n) == if d == dp && n == name then None else Given(s.nodes, d, n)
  {
    hide Inv, Lookup, IsEmpty;
    var es := s.nodes[dp].entries;
    var k := Lookup(es, name).value;
    Unique(s, dp, k);
    NotItself(s, dp, k, es[k].inum);
    SlotCleared(es, k, name, n);
  }

  lemma Unique(s: State, dp: nat, k: nat)
    requires Inv(s) && LiveDir(s, dp) && k < |s.nodes[dp].entries|
    requires s.nodes[dp].entries[k].name != "." && s.nodes[dp].entries[k].name != ".."
    ensures k >= 2 && UniqueNames(s.nodes[dp].entries)
  {
    hide Counted, SlotsOk, OneName, Named, Rooted, Refs;
    assert DotsOk(s, dp);
  }

  predicate UniqueNames(es: seq<Entry>) {
    forall i, j :: 0 <= i < j < |es| && es[i].inum != 0 && es[j].inum != 0 ==> es[i].name != es[j].name
  }

  lemma SlotCleared(es: seq<Entry>, k: nat, name: string, n: string)
    requires UniqueNames(es) && k < |es| && Names(es[k], name)
    ensures var es' := es[k := Entry(0, "")];
            if n == name then Lookup(es', n) == None
            else Lookup(es', n) == Lookup(es, n) && (Lookup(es, n).Some? ==>
                   es'[Lookup(es, n).value] == es[Lookup(es, n).value])
  {
    var es' := es[k := Entry(0, "")];
    if n == name {
      LookupNone(es', n);
    } else {
      LookupElsewhere(es, es', k, n);
    }
  }

  /** What a slot other than the dots names, if it is no directory with names of its own, is another inode, with a
      link. */
  lemma NotItself(s: State, dp: nat, k: nat, x: nat)
    requires Inv(s) && LiveDir(s, dp) && 2 <= k < |s.nodes[dp].entries| && s.nodes[dp].entries[k].inum == x
    requires x != 0 && x in s.nodes && (s.nodes[x].typ == Dir ==> IsEmpty(s.nodes[x].entries))
    ensures x != dp && s.nodes[x].nlink > 0
  {
    hide Inv;
    NamedNotFree(s, dp, k, x);
  }

  /** The other steps change no name: a link count goes up or down, or an inode nobody can name goes. */
  lemma OthersName(s: State, e: Event, d: nat, n: string)
    requires Enabled(s, e) && (e.LinkBegin? || e.LinkFail? || e.Free?) && !(e.Free? && e.x == d)
    ensures var s' := Next(s, e);
            && Given(s'.nodes, d, n) == Given(s.nodes, d, n)
            && s'.nodes.Keys == s.nodes.Keys - (if e.Free? then {e.x} else {})
            && (d in s.nodes ==>
                  s'.nodes[d] == s.nodes[d].(nlink := if d != e.x then s.nodes[d].nlink
                                                      else if e.LinkBegin? then s.nodes[d].nlink + 1
                                                      else s.nodes[d].nlink - 1))
            && s'.linking == (if e.LinkBegin? then s.linking + multiset{e.x}
                              else if e.LinkFail? then s.linking - multiset{e.x} else s.linking)
  {
  }
}
