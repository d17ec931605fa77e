/**
 * The directory tree: create, link and unlink over directories of named slots.
 *
 * A link is two steps, because sys_link raises the link count before it holds the directory.  Every
 * inode's link count is the number of slots naming it (not as ".") in directories that are themselves
 * linked, plus the links in progress; and the linked directories are a tree under the root.
 */
module DirTree {
  import opened Common

  const ROOT: nat := 1

  datatype Type = Dir | File | Dev

  /** A directory slot; inum 0 is an empty slot. */
  datatype Entry = Entry(inum: nat, name: string)

  datatype Node = Node(typ: Type, nlink: nat, entries: seq<Entry>)

  /** `linking`: the inodes whose count sys_link has raised and whose slot it has not written yet. */
  datatype State = State(nodes: map<nat, Node>, linking: multiset<nat>)

  datatype Event =
    | Create(dp: nat, name: string, typ: Type, x: nat)
    | LinkBegin(x: nat)
    | LinkEnd(dp: nat, name: string, x: nat)
    | LinkFail(x: nat)
    | Unlink(dp: nat, name: string)
    | Free(x: nat)                       // the last pointer to an unlinked inode is dropped

  // ---------------------------------------------------------------------------------------------
  // Directory contents

  predicate Names(e: Entry, name: string) { e.inum != 0 && e.name == name }

  /** dirlookup: the first used slot of that name at or after `from`. */
  function Lookup(es: seq<Entry>, name: string, from: nat := 0): (r: Option<nat>)
    requires from <= |es|
    ensures r.Some? ==> from <= r.value < |es| && Names(es[r.value], name)
    ensures r.Some? ==> forall k :: from <= k < r.value ==> !Names(es[k], name)
    ensures r.None? ==> forall k :: from <= k < |es| ==> !Names(es[k], name)
    decreases |es| - from
  {
    if from == |es| then None
    else if Names(es[from], name) then Some(from)
    else Lookup(es, name, from + 1)
  }

  /** dirlink's slot: the first empty one at or after `from`, or the end. */
  function EmptySlot(es: seq<Entry>, from: nat := 0): (k: nat)
    requires from <= |es|
    ensures from <= k <= |es| && (k < |es| ==> es[k].inum == 0)
    ensures forall j :: from <= j < k ==> es[j].inum != 0
    decreases |es| - from
  {
    if from == |es| || es[from].inum == 0 then from else EmptySlot(es, from + 1)
  }

  function Put(es: seq<Entry>, k: nat, e: Entry): seq<Entry>
    requires k <= |es|
  {
    if k < |es| then es[k := e] else es + [e]
  }

  function Linked(es: seq<Entry>, name: string, inum: nat): seq<Entry> {
    Put(es, EmptySlot(es), Entry(inum, name))
  }

  /** isdirempty looks at the slots after the first two. */
  predicate IsEmpty(es: seq<Entry>) { forall k :: 2 <= k < |es| ==> es[k].inum == 0 }

  predicate LiveDir(s: State, d: nat) { d in s.nodes && s.nodes[d].typ == Dir && s.nodes[d].nlink > 0 }

  /** What unlink removes: a slot of that name whose inode is not a non-empty directory. */
  predicate Unlinks(s: State, dp: nat, name: string)
    requires dp in s.nodes
  {
    && name != "." && name != ".."
    && Lookup(s.nodes[dp].entries, name).Some?
    && var x := s.nodes[dp].entries[Lookup(s.nodes[dp].entries, name).value].inum;
       x in s.nodes && (s.nodes[x].typ == Dir ==> IsEmpty(s.nodes[x].entries))
  }

  predicate Enabled(s: State, e: Event) {
    match e
    case Create(dp, name, typ, x) =>
      LiveDir(s, dp) && x != 0 && x !in s.nodes && Lookup(s.nodes[dp].entries, name).None?
    case LinkBegin(x) => x in s.nodes && s.nodes[x].typ != Dir
    case LinkEnd(dp, name, x) =>
      x in s.linking && LiveDir(s, dp) && Lookup(s.nodes[dp].entries, name).None?
    case LinkFail(x) => x in s.linking && x in s.nodes && s.nodes[x].nlink > 0
    case Unlink(dp, name) => LiveDir(s, dp) && Unlinks(s, dp, name)
    case Free(x) => x in s.nodes && s.nodes[x].nlink == 0
  }

  function NewNode(typ: Type, x: nat, dp: nat): Node {
    Node(typ, 1, if typ == Dir then [Entry(x, "."), Entry(dp, "..")] else [])
  }

  function Created(s: State, dp: nat, name: string, typ: Type, x: nat): State
    requires dp in s.nodes
  {
    var d := s.nodes[dp];
    var d' := Node(d.typ, if typ == Dir then d.nlink + 1 else d.nlink, Linked(d.entries, name, x));
    s.(nodes := s.nodes[x := NewNode(typ, x, dp)][dp := d'])
  }

  function LinkedIn(s: State, dp: nat, name: string, x: nat): State
    requires dp in s.nodes
  {
    State(s.nodes[dp := s.nodes[dp].(entries := Linked(s.nodes[dp].entries, name, x))], s.linking - multiset{x})
  }

  function Next(s: State, e: Event): State
    requires Enabled(s, e)
  {
    match e
    case Create(dp, name, typ, x) => Created(s, dp, name, typ, x)
    case LinkBegin(x) =>
      State(s.nodes[x := s.nodes[x].(nlink := s.nodes[x].nlink + 1)], s.linking + multiset{x})
    case LinkEnd(dp, name, x) => LinkedIn(s, dp, name, x)
    case LinkFail(x) =>
      State(s.nodes[x := s.nodes[x].(nlink := s.nodes[x].nlink - 1)], s.linking - multiset{x})
    case Unlink(dp, name) =>
      var d := s.nodes[dp];
      var k := Lookup(d.entries, name).value;
      var x := d.entries[k].inum;
      var d' := Node(Dir, if s.nodes[x].typ == Dir then Less(d.nlink) else d.nlink, d.entries[k := Entry(0, "")]);
      var nodes := s.nodes[dp := d'];
      s.(nodes := nodes[x := nodes[x].(nlink := Less(nodes[x].nlink))])
    case Free(x) => s.(nodes := s.nodes - {x})
  }

  ghost predicate Feasible(s: State, es: seq<Event>)
    decreases |es|, 0
  {
    es == [] || (Feasible(s, es[..|es| - 1]) && Enabled(After(s, es[..|es| - 1]), es[|es| - 1]))
  }

  ghost function After(s: State, es: seq<Event>): State
    requires Feasible(s, es)
    decreases |es|, 1
  {
    if es == [] then s else Next(After(s, es[..|es| - 1]), es[|es| - 1])
  }

  /** mkfs's image: a root directory whose parent is itself. */
  ghost predicate Boot(s: State) {
    && s.nodes == map[ROOT := Node(Dir, 1, [Entry(ROOT, "."), Entry(ROOT, "..")])]
    && s.linking == multiset{}
  }

  // ---------------------------------------------------------------------------------------------
  // The invariant

  datatype Slot = Slot(d: nat, k: nat)

  /** Slot `k` of linked directory `d` names `x`, and not as ".". */
  predicate Refers(s: State, d: nat, k: nat, x: nat) {
    && LiveDir(s, d) && k < |s.nodes[d].entries|
    && s.nodes[d].entries[k].inum == x && x != 0 && s.nodes[d].entries[k].name != "."
  }

  /** The slots that count as links to `x`. */
  ghost function Refs(s: State, x: nat): set<Slot> {
    set d, k | d in s.nodes && 0 <= k < |s.nodes[d].entries| && Refers(s, d, k, x) :: Slot(d, k)
  }

  ghost predicate CountOk(s: State, x: nat)
    requires x in s.nodes
  {
    s.nodes[x].nlink == |Refs(s, x)| + s.linking[x]
  }

  ghost predicate Counted(s: State) { forall x :: x in s.nodes ==> CountOk(s, x) }

  function Parent(s: State, d: nat): nat
    requires d in s.nodes && |s.nodes[d].entries| >= 2
  {
    s.nodes[d].entries[1].inum
  }

  /** The first two slots are "." and "..", and no name is used twice. */
  predicate DotsOk(s: State, d: nat)
    requires d in s.nodes
  {
    var es := s.nodes[d].entries;
    && |es| >= 2 && es[0] == Entry(d, ".") && es[1].name == ".." && LiveDir(s, es[1].inum)
    && forall j, k :: 0 <= j < k < |es| && es[j].inum != 0 && es[k].inum != 0 ==> es[j].name != es[k].name
  }

  ghost predicate Dotted(s: State) { forall d :: LiveDir(s, d) ==> DotsOk(s, d) }

  /** A slot after the dots names an inode that exists; if it is a directory, `d` is its parent. */
  predicate SlotOk(s: State, d: nat, k: nat)
    requires LiveDir(s, d) && 2 <= k < |s.nodes[d].entries|
  {
    var x := s.nodes[d].entries[k].inum;
    x != 0 ==>
      && x in s.nodes && x != ROOT
      && (s.nodes[x].typ == Dir ==> LiveDir(s, x) && |s.nodes[x].entries| >= 2 && Parent(s, x) == d)
  }

  ghost predicate SlotsOk(s: State) {
    forall d, k :: LiveDir(s, d) && 2 <= k < |s.nodes[d].entries| ==> SlotOk(s, d, k)
  }

  predicate IsDir(s: State, x: nat) { x in s.nodes && s.nodes[x].typ == Dir }

  /** A directory has one name. */
  ghost predicate OneName(s: State) {
    forall d, j, k :: LiveDir(s, d) && 2 <= j < k < |s.nodes[d].entries| ==> OneNameAt(s, d, j, k)
  }

  predicate OneNameAt(s: State, d: nat, j: nat, k: nat)
    requires LiveDir(s, d) && 2 <= j < k < |s.nodes[d].entries|
  {
    IsDir(s, s.nodes[d].entries[j].inum) ==> s.nodes[d].entries[j].inum != s.nodes[d].entries[k].inum
  }

  ghost predicate NamedIn(s: State, c: nat, p: nat) {
    LiveDir(s, p) && exists k :: 2 <= k < |s.nodes[p].entries| && s.nodes[p].entries[k].inum == c
  }

  /** Every linked directory but the root is in its parent. */
  ghost predicate Named(s: State) {
    forall c :: LiveDir(s, c) && c != ROOT && |s.nodes[c].entries| >= 2 ==> NamedIn(s, c, Parent(s, c))
  }

  /** Following ".." from `d` reaches the root in `n` steps. */
  ghost predicate Climbs(s: State, d: nat, n: nat)
    decreases n
  {
    && LiveDir(s, d)
    && if n == 0 then d == ROOT else |s.nodes[d].entries| >= 2 && Climbs(s, Parent(s, d), n - 1)
  }

  ghost predicate Rooted(s: State) { forall d :: LiveDir(s, d) ==> exists n: nat :: Climbs(s, d, n) }

  ghost predicate LinkingOk(s: State) {
    0 !in s.nodes && forall x :: x in s.linking ==> x in s.nodes && s.nodes[x].typ != Dir
  }

  ghost predicate RootOk(s: State) {
    LiveDir(s, ROOT) && |s.nodes[ROOT].entries| >= 2 && Parent(s, ROOT) == ROOT
  }

  ghost predicate Inv(s: State) {
    && Counted(s) && Dotted(s) && SlotsOk(s) && OneName(s) && Named(s) && Rooted(s) && LinkingOk(s) && RootOk(s)
  }

  // ---------------------------------------------------------------------------------------------
  // What each step does to the links of an inode

  lemma RefsAre(s: State, x: nat, all: set<Slot>)
    requires forall d: nat, k: nat :: Refers(s, d, k, x) <==> Slot(d, k) in all
    ensures Refs(s, x) == all
  {
    forall sl: Slot ensures sl in Refs(s, x) <==> sl in all {
      assert Refers(s, sl.d, sl.k, x) <==> Slot(sl.d, sl.k) in all;
    }
  }

  lemma InRefs(s: State, d: nat, k: nat, x: nat)
    ensures Refers(s, d, k, x) <==> Slot(d, k) in Refs(s, x)
  {
  }

  /** The name of a new slot is no dot, because the dots are there already. */
  lemma NotDots(s: State, dp: nat, name: string)
    requires LiveDir(s, dp) && DotsOk(s, dp) && 0 !in s.nodes
    requires Lookup(s.nodes[dp].entries, name).None?
    ensures EmptySlot(s.nodes[dp].entries) >= 2 && name != "." && name != ".."
  {
    assert Names(s.nodes[dp].entries[0], ".") && Names(s.nodes[dp].entries[1], "..");
  }

  function NewSlot(s: State, dp: nat): Slot
    requires dp in s.nodes
  {
    Slot(dp, EmptySlot(s.nodes[dp].entries))
  }

  /** The slots a step writes that name `y`. */
  function Adds(s: State, e: Event, y: nat): set<Slot>
    requires Enabled(s, e)
  {
    match e
    case Create(dp, _, typ, x) =>
      (if y == x then {NewSlot(s, dp)} else {}) + if y == dp && typ == Dir then {Slot(x, 1)} else {}
    case LinkEnd(dp, _, x) => if y == x then {NewSlot(s, dp)} else {}
    case _ => {}
  }

  /** The slot and the inode unlink finds. */
  function Found(s: State, e: Event): (r: (nat, nat))
    requires e.Unlink? && Enabled(s, e)
    ensures r.0 < |s.nodes[e.dp].entries| && r.1 in s.nodes && r.1 == s.nodes[e.dp].entries[r.0].inum && r.1 != 0
    ensures s.nodes[e.dp].entries[r.0].name == e.name
  {
    var k := Lookup(s.nodes[e.dp].entries, e.name).value;
    (k, s.nodes[e.dp].entries[k].inum)
  }

  /** The slots a step clears, or puts out of the tree, that name `y`. */
  function Drops(s: State, e: Event, y: nat): set<Slot>
    requires Enabled(s, e)
  {
    if !e.Unlink? then {}
    else
      var (k, x) := Found(s, e);
      (if y == x then {Slot(e.dp, k)} else {}) + if y == e.dp && IsDir(s, x) then {Slot(x, 1)} else {}
  }

  /** The facts about an unlinked directory that follow from the invariant: it is empty and childless, so
      its one name is its last link, while its parent keeps another. */
  predicate Leaf(s: State, dp: nat, x: nat) {
    && x in s.nodes && dp in s.nodes && s.nodes[x].nlink == 1 && s.nodes[dp].nlink >= 2 && x != dp
    && |s.nodes[x].entries| >= 2 && s.nodes[x].entries[0].name == "."
    && s.nodes[x].entries[1] == Entry(dp, "..") && IsEmpty(s.nodes[x].entries)
  }

  predicate Ready(s: State, e: Event)
    requires Enabled(s, e)
  {
    && 0 !in s.nodes
    && (e.Create? || e.LinkEnd? ==> e.name != "." && e.name != ".." && NewSlot(s, e.dp).k >= 2)
    && (e.Create? ==> e.x != ROOT)
    && (e.LinkEnd? ==> e.x in s.nodes && s.nodes[e.x].typ != Dir && e.x != 0)
    && (e.LinkFail? ==> s.nodes[e.x].typ != Dir)
    && (e.Unlink? ==>
          var (k, x) := Found(s, e);
          k >= 2 && s.nodes[x].nlink >= 1 && x != ROOT && (IsDir(s, x) ==> Leaf(s, e.dp, x)))
  }

  lemma RefersStep(s: State, e: Event, d: nat, k: nat, y: nat)
    requires Enabled(s, e) && Ready(s, e)
    ensures Refers(Next(s, e), d, k, y) <==>
            (Refers(s, d, k, y) || Slot(d, k) in Adds(s, e, y)) && Slot(d, k) !in Drops(s, e, y)
  {
    match e
    case Unlink(dp, name) => UnlinkRefers(s, e, d, k, y);
    case _ =>
  }

  lemma UnlinkRefers(s: State, e: Event, d: nat, k: nat, y: nat)
    requires e.Unlink? && Enabled(s, e) && Ready(s, e)
    ensures Refers(Next(s, e), d, k, y) <==> Refers(s, d, k, y) && Slot(d, k) !in Drops(s, e, y)
  {
    var (k0, x) := Found(s, e);
    if d != x && d != e.dp {
    } else if d == x && IsDir(s, x) {
      assert !LiveDir(Next(s, e), x);
      assert k >= 2 ==> !Refers(s, d, k, y);
    } else {
    }
  }

  lemma RefsStep(s: State, e: Event, y: nat)
    requires Enabled(s, e) && Ready(s, e)
    ensures Refs(Next(s, e), y) == Refs(s, y) + Adds(s, e, y) - Drops(s, e, y)
    ensures Refs(s, y) !! Adds(s, e, y) && Drops(s, e, y) <= Refs(s, y)
  {
    hide Next, Refers, Refs, Enabled, Ready;
    var all := Refs(s, y) + Adds(s, e, y) - Drops(s, e, y);
    forall d: nat, k: nat ensures Refers(Next(s, e), d, k, y) <==> Slot(d, k) in all {
      RefersStep(s, e, d, k, y);
      InRefs(s, d, k, y);
    }
    RefsAre(Next(s, e), y, all);
    forall sl: Slot ensures sl in Adds(s, e, y) ==> sl !in Refs(s, y)
                    ensures sl in Drops(s, e, y) ==> sl in Refs(s, y) {
      InRefs(s, sl.d, sl.k, y);
      NewAndOld(s, e, sl, y);
    }
  }

  lemma NewAndOld(s: State, e: Event, sl: Slot, y: nat)
    requires Enabled(s, e) && Ready(s, e)
    ensures sl in Adds(s, e, y) ==> !Refers(s, sl.d, sl.k, y)
    ensures sl in Drops(s, e, y) ==> Refers(s, sl.d, sl.k, y)
  {
  }

  // ---------------------------------------------------------------------------------------------
  // What the invariant gives each step

  lemma InvReady(s: State, e: Event)
    requires Inv(s) && Enabled(s, e)
    ensures Ready(s, e)
  {
    hide Counted, SlotsOk, OneName, Named, Rooted, Refs;
    match e
    case Create(dp, name, _, x) => NotDots(s, dp, name);
    case LinkEnd(dp, name, x) => NotDots(s, dp, name);
    case Unlink(dp, name) => UnlinkReady(s, e);
    case _ =>
  }

  /** A named inode has a link, so unlink's panic "nlink < 1" is unreachable. */
  lemma RefersCounts(s: State, d: nat, k: nat, x: nat)
    requires Counted(s) && x in s.nodes && Refers(s, d, k, x)
    ensures s.nodes[x].nlink >= 1
  {
    InRefs(s, d, k, x);
    assert CountOk(s, x);
    assert Refs(s, x) != {};
  }

  lemma UnlinkReady(s: State, e: Event)
    requires Inv(s) && e.Unlink? && Enabled(s, e)
    ensures Ready(s, e)
  {
    hide OneName, Named, Rooted, Refs, Counted, SlotsOk;
    var (k, x) := Found(s, e);
    assert DotsOk(s, e.dp);
    assert k >= 2;
    assert SlotOk(s, e.dp, k) by { AllSlots(s, e.dp, k); }
    RefersCounts(s, e.dp, k, x);
    if IsDir(s, x) {
      UnlinkLeaf(s, e.dp, k, x);
    }
  }

  lemma AllSlots(s: State, d: nat, k: nat)
    requires SlotsOk(s) && LiveDir(s, d) && 2 <= k < |s.nodes[d].entries|
    ensures SlotOk(s, d, k)
  {
  }

  lemma UnlinkLeaf(s: State, dp: nat, k: nat, x: nat)
    requires Inv(s) && LiveDir(s, dp) && 2 <= k < |s.nodes[dp].entries| && s.nodes[dp].entries[k].inum == x
    requires IsDir(s, x) && IsEmpty(s.nodes[x].entries) && x != 0 && x != ROOT
    ensures Leaf(s, dp, x)
  {
    hide Rooted, Refs, OneName, Named, Counted;
    assert SlotOk(s, dp, k) && DotsOk(s, x) && DotsOk(s, dp);
    if x == dp {
      assert false;
    }
    EmptyHasOneLink(s, dp, k, x);
    ParentHasTwo(s, dp, x);
  }

  /** Only its own name refers to an empty directory. */
  lemma EmptyHasOneLink(s: State, dp: nat, k: nat, x: nat)
    requires Inv(s) && LiveDir(s, dp) && 2 <= k < |s.nodes[dp].entries| && s.nodes[dp].entries[k].inum == x
    requires LiveDir(s, x) && IsEmpty(s.nodes[x].entries) && x != 0 && x != ROOT && Parent(s, x) == dp
    ensures s.nodes[x].nlink == 1
  {
    hide Refs, Rooted;
    assert DotsOk(s, dp);
    forall d: nat, j: nat ensures Refers(s, d, j, x) <==> Slot(d, j) in {Slot(dp, k)} {
      if Refers(s, d, j, x) {
        OnlyName(s, dp, k, x, d, j);
      }
    }
    RefsAre(s, x, {Slot(dp, k)});
    assert CountOk(s, x);
  }

  lemma OnlyName(s: State, dp: nat, k: nat, x: nat, d: nat, j: nat)
    requires Inv(s) && LiveDir(s, dp) && 2 <= k < |s.nodes[dp].entries| && s.nodes[dp].entries[k].inum == x
    requires LiveDir(s, x) && IsEmpty(s.nodes[x].entries) && x != 0 && x != ROOT && Parent(s, x) == dp
    requires Refers(s, d, j, x)
    ensures d == dp && j == k
  {
    hide Refs, Rooted, Counted;
    assert DotsOk(s, d);
    assert j == 1 ==> d != ROOT;
    assert j == 1 ==> NamedIn(s, d, x);
    assert j >= 2;
    assert SlotOk(s, d, j);
    assert j < k ==> OneNameAt(s, dp, j, k);
    assert k < j ==> OneNameAt(s, dp, k, j);
  }

  /** A directory with a subdirectory has that one's ".." and its own name. */
  lemma ParentHasTwo(s: State, dp: nat, x: nat)
    requires Inv(s) && LiveDir(s, dp) && LiveDir(s, x) && DotsOk(s, x) && Parent(s, x) == dp && x != ROOT && dp != x
    ensures s.nodes[dp].nlink >= 2
  {
    hide Rooted, OneName, SlotsOk, Refs, Named, Dotted;
    assert CountOk(s, dp);
    InRefs(s, x, 1, dp);
    var sl := OwnName(s, dp);
    InRefs(s, sl.d, sl.k, dp);
    var all := Refs(s, dp);
    assert sl in all && Slot(x, 1) in all;
    assert Slot(x, 1) in all - {sl} && |all - {sl}| == |all| - 1;
  }

  /** A linked directory is named by its parent, or, the root, by itself. */
  lemma OwnName(s: State, d: nat) returns (sl: Slot)
    requires Inv(s) && LiveDir(s, d)
    ensures Refers(s, sl.d, sl.k, d) && (sl == Slot(ROOT, 1) || sl.k >= 2)
  {
    hide Rooted, OneName, SlotsOk, Refs, Counted;
    assert DotsOk(s, d);
    if d == ROOT {
      sl := Slot(ROOT, 1);
    } else {
      var p := Parent(s, d);
      assert NamedIn(s, d, p);
      var j :| 2 <= j < |s.nodes[p].entries| && s.nodes[p].entries[j].inum == d;
      assert DotsOk(s, p);
      sl := Slot(p, j);
    }
  }

  // ---------------------------------------------------------------------------------------------
  // Each part is kept

  lemma CountedStep(s: State, e: Event)
    requires Inv(s) && Enabled(s, e) && Ready(s, e)
    ensures Counted(Next(s, e))
  {
    hide Rooted, OneName, Named, Refs, Inv;
    forall y | y in Next(s, e).nodes ensures CountOk(Next(s, e), y) {
      RefsStep(s, e, y);
      if e.Create? && y == e.x {
        NoRefs(s, y);
      } else {
        CountAt(s, y);
      }
      CountStep(s, e, y);
    }
  }

  lemma CountAt(s: State, y: nat)
    requires Inv(s) && y in s.nodes
    ensures CountOk(s, y)
  {
  }

  /** Nothing names an inode that does not exist. */
  lemma NoRefs(s: State, y: nat)
    requires Inv(s) && y !in s.nodes
    ensures Refs(s, y) == {} && y !in s.linking
  {
    forall d: nat, k: nat ensures !Refers(s, d, k, y) {
      NoRefAt(s, d, k, y);
    }
    RefsAre(s, y, {});
  }

  lemma NoRefAt(s: State, d: nat, k: nat, y: nat)
    requires Inv(s) && y !in s.nodes
    ensures !Refers(s, d, k, y)
  {
    hide Counted, OneName, Named, Rooted;
    assert LiveDir(s, d) ==> DotsOk(s, d);
    assert LiveDir(s, d) && 2 <= k < |s.nodes[d].entries| ==> SlotOk(s, d, k);
  }

  lemma CountStep(s: State, e: Event, y: nat)
    requires Enabled(s, e) && Ready(s, e) && y in Next(s, e).nodes
    requires y in s.nodes ==> CountOk(s, y)
    requires y !in s.nodes ==> Refs(s, y) == {} && y !in s.linking
    requires Refs(Next(s, e), y) == Refs(s, y) + Adds(s, e, y) - Drops(s, e, y)
    requires Refs(s, y) !! Adds(s, e, y) && Drops(s, e, y) <= Refs(s, y)
    ensures CountOk(Next(s, e), y)
  {
    hide Refs, Refers;
    Sizes(Refs(s, y), Adds(s, e, y), Drops(s, e, y));
    if e.Unlink? {
      UnlinkCount(s, e, y);
    } else {
      PlusCount(s, e, y);
    }
  }

  lemma Sizes<T>(a: set<T>, b: set<T>, c: set<T>)
    requires a !! b && c <= a
    ensures |a + b - c| == |a| + |b| - |c|
  {
    assert a + b - c == (a - c) + b;
  }

  /** By how much a step changes the link count and the links in progress, other than unlink. */
  lemma PlusCount(s: State, e: Event, y: nat)
    requires Enabled(s, e) && Ready(s, e) && y in Next(s, e).nodes && !e.Unlink?
    requires y !in s.nodes ==> y !in s.linking
    ensures Drops(s, e, y) == {}
    ensures Next(s, e).nodes[y].nlink - Next(s, e).linking[y] ==
            (if y in s.nodes then s.nodes[y].nlink else 0) - s.linking[y] + |Adds(s, e, y)|
  {
  }

  lemma UnlinkCount(s: State, e: Event, y: nat)
    requires Enabled(s, e) && Ready(s, e) && y in Next(s, e).nodes && e.Unlink?
    ensures y in s.nodes && Adds(s, e, y) == {} && Next(s, e).linking == s.linking
    ensures Next(s, e).nodes[y].nlink == s.nodes[y].nlink - |Drops(s, e, y)|
  {
  }

  /** Which directories a step makes or unmakes. */
  lemma LiveStep(s: State, e: Event, d: nat)
    requires Enabled(s, e) && Ready(s, e)
    ensures LiveDir(Next(s, e), d) <==>
            (LiveDir(s, d) || (e.Create? && e.typ == Dir && d == e.x)) && !(e.Unlink? && d == Found(s, e).1)
    ensures LiveDir(Next(s, e), d) && LiveDir(s, d) ==>
              |s.nodes[d].entries| >= 2 ==> Next(s, e).nodes[d].entries[..2] == s.nodes[d].entries[..2]
  {
  }

  /** A slot of a directory after a step: as before, newly written, or just cleared. */
  lemma SlotStep(s: State, e: Event, d: nat, j: nat)
    requires Enabled(s, e) && Ready(s, e) && LiveDir(Next(s, e), d) && LiveDir(s, d)
    requires j < |Next(s, e).nodes[d].entries|
    ensures var es, es' := s.nodes[d].entries, Next(s, e).nodes[d].entries;
            || (j < |es| && es'[j] == es[j])
            || (j >= 2 && (e.Create? || e.LinkEnd?) && Slot(d, j) == NewSlot(s, e.dp) && es'[j] == Entry(e.x, e.name))
            || (j >= 2 && e.Unlink? && d == e.dp && j == Found(s, e).0 && es'[j] == Entry(0, ""))
  {
  }

  /** A slot in use stays as it is unless unlink clears it. */
  lemma SlotStays(s: State, e: Event, d: nat, j: nat)
    requires Enabled(s, e) && Ready(s, e) && LiveDir(Next(s, e), d) && LiveDir(s, d) && j < |s.nodes[d].entries|
    requires s.nodes[d].entries[j].inum != 0 && !(e.Unlink? && d == e.dp && j == Found(s, e).0)
    ensures j < |Next(s, e).nodes[d].entries| && Next(s, e).nodes[d].entries[j] == s.nodes[d].entries[j]
  {
  }

  /** Which inodes a step makes or unmakes; none changes its type. */
  lemma NodeStep(s: State, e: Event, y: nat)
    requires Enabled(s, e) && Ready(s, e)
    ensures 0 !in s.nodes
    ensures y in Next(s, e).nodes <==> (y in s.nodes || (e.Create? && y == e.x)) && !(e.Free? && y == e.x)
    ensures y in Next(s, e).nodes && y in s.nodes ==> Next(s, e).nodes[y].typ == s.nodes[y].typ
    ensures e.Create? ==> e.x != e.dp && Next(s, e).nodes[e.x] == NewNode(e.typ, e.x, e.dp)
  {
  }

  lemma LinkingStep(s: State, e: Event, y: nat)
    requires Enabled(s, e) && Ready(s, e) && y in Next(s, e).linking
    ensures y in s.linking || (y in s.nodes && s.nodes[y].typ != Dir)
    ensures !(e.Free? && y == e.x) || y in s.linking
  {
  }

  lemma LinkingOkStep(s: State, e: Event)
    requires LinkingOk(s) && Enabled(s, e) && Ready(s, e) && Counted(s)
    ensures LinkingOk(Next(s, e))
  {
    hide Refs, Next, CountOk, Ready;
    NodeStep(s, e, 0);
    if e.Create? {
      CreateIsNew(s, e);
    } else if e.Free? {
      FreedIsIdle(s, e.x);
    }
    forall y | y in Next(s, e).linking ensures y in Next(s, e).nodes && Next(s, e).nodes[y].typ != Dir {
      LinkingStep(s, e, y);
      NodeStep(s, e, y);
    }
  }

  lemma FreedIsIdle(s: State, x: nat)
    requires Counted(s) && x in s.nodes && s.nodes[x].nlink == 0
    ensures x !in s.linking && Refs(s, x) == {}
  {
    assert CountOk(s, x);
  }

  /** No step takes away the parent of a directory that stays. */
  lemma ParentStays(s: State, e: Event, d: nat)
    requires Inv(s) && Enabled(s, e) && Ready(s, e) && LiveDir(s, d) && LiveDir(Next(s, e), d)
    ensures |s.nodes[d].entries| >= 2 && |Next(s, e).nodes[d].entries| >= 2
    ensures Parent(Next(s, e), d) == Parent(s, d) && LiveDir(s, Parent(s, d)) && LiveDir(Next(s, e), Parent(s, d))
  {
    hide Counted, Rooted, OneName, SlotsOk, Next, Enabled;
    assert DotsOk(s, d);
    LiveStep(s, e, d);
    LiveStep(s, e, Parent(s, d));
    SlotStays(s, e, d, 1);
    if d != ROOT {
      assert NamedIn(s, d, Parent(s, d));
    }
  }

  lemma DottedStep(s: State, e: Event)
    requires Inv(s) && Enabled(s, e) && Ready(s, e)
    ensures Dotted(Next(s, e))
  {
    hide Inv, Next, Enabled, Ready;
    forall d | LiveDir(Next(s, e), d) ensures DotsOk(Next(s, e), d) {
      LiveStep(s, e, d);
      if LiveDir(s, d) {
        DotsStep(s, e, d);
      } else {
        NewDots(s, e);
      }
    }
  }

  lemma NewDots(s: State, e: Event)
    requires Enabled(s, e) && Ready(s, e) && e.Create? && e.typ == Dir
    ensures LiveDir(Next(s, e), e.x) && DotsOk(Next(s, e), e.x)
  {
    hide Lookup, EmptySlot;
    NodeStep(s, e, e.x);
    LiveStep(s, e, e.dp);
  }

  lemma DotsStep(s: State, e: Event, d: nat)
    requires Inv(s) && Enabled(s, e) && Ready(s, e) && LiveDir(Next(s, e), d) && LiveDir(s, d)
    ensures DotsOk(Next(s, e), d)
  {
    hide Counted, Rooted, OneName, SlotsOk, Named, Next, Enabled;
    var es, es' := s.nodes[d].entries, Next(s, e).nodes[d].entries;
    assert DotsOk(s, d);
    ParentStays(s, e, d);
    SlotStays(s, e, d, 0);
    SlotStays(s, e, d, 1);
    forall j, k | 0 <= j < k < |es'| && es'[j].inum != 0 && es'[k].inum != 0 ensures es'[j].name != es'[k].name {
      SlotStep(s, e, d, j);
      SlotStep(s, e, d, k);
      if e.Create? || e.LinkEnd? {
        NewName(s, e);
      }
    }
  }

  lemma NewName(s: State, e: Event)
    requires Enabled(s, e) && (e.Create? || e.LinkEnd?)
    ensures LiveDir(s, e.dp)
    ensures forall k :: 0 <= k < |s.nodes[e.dp].entries| ==> !Names(s.nodes[e.dp].entries[k], e.name)
    ensures NewSlot(s, e.dp).k < |s.nodes[e.dp].entries| ==> s.nodes[e.dp].entries[NewSlot(s, e.dp).k].inum == 0
  {
  }

  lemma SlotsOkStep(s: State, e: Event)
    requires Inv(s) && Enabled(s, e) && Ready(s, e)
    ensures SlotsOk(Next(s, e))
  {
    hide Inv, Next, Enabled, Ready;
    forall d, k | LiveDir(Next(s, e), d) && 2 <= k < |Next(s, e).nodes[d].entries| ensures SlotOk(Next(s, e), d, k) {
      LiveStep(s, e, d);
      if LiveDir(s, d) {
        SlotOkStep(s, e, d, k);
      } else {
        NodeStep(s, e, d);
      }
    }
  }

  lemma SlotOkStep(s: State, e: Event, d: nat, k: nat)
    requires Inv(s) && Enabled(s, e) && Ready(s, e) && LiveDir(Next(s, e), d) && LiveDir(s, d)
    requires 2 <= k < |Next(s, e).nodes[d].entries|
    ensures SlotOk(Next(s, e), d, k)
  {
    hide Counted, Rooted, OneName, Named, Next, Enabled;
    SlotStep(s, e, d, k);
    var x := Next(s, e).nodes[d].entries[k].inum;
    if x != 0 && k < |s.nodes[d].entries| && Next(s, e).nodes[d].entries[k] == s.nodes[d].entries[k] {
      assert SlotOk(s, d, k);
      OldSlot(s, e, d, k, x);
    } else if x != 0 {
      NodeStep(s, e, x);
      LiveStep(s, e, x);
    }
  }

  lemma OldSlot(s: State, e: Event, d: nat, k: nat, x: nat)
    requires Inv(s) && Enabled(s, e) && Ready(s, e) && LiveDir(s, d) && 2 <= k < |s.nodes[d].entries|
    requires LiveDir(Next(s, e), d) && k < |Next(s, e).nodes[d].entries|
    requires s.nodes[d].entries[k].inum == x == Next(s, e).nodes[d].entries[k].inum && x != 0
    ensures SlotOk(Next(s, e), d, k)
  {
    hide Rooted, OneName, Named, Next, Counted;
    assert SlotOk(s, d, k) && DotsOk(s, d);
    RefersCounts(s, d, k, x);
    NodeStep(s, e, x);
    LiveStep(s, e, x);
    if s.nodes[x].typ == Dir {
      if e.Unlink? && Found(s, e).1 == x {
        UnlinkedOnce(s, e, d, k);
        Cleared(s, e);
        assert false;
      }
      ParentStays(s, e, x);
    }
  }

  /** The slot unlink clears was the only one naming that directory. */
  lemma UnlinkedOnce(s: State, e: Event, d: nat, k: nat)
    requires Inv(s) && Enabled(s, e) && Ready(s, e) && e.Unlink? && IsDir(s, Found(s, e).1)
    requires LiveDir(s, d) && 2 <= k < |s.nodes[d].entries| && s.nodes[d].entries[k].inum == Found(s, e).1
    ensures d == e.dp && k == Found(s, e).0
  {
    hide Rooted, Counted, SlotsOk, Named, OneName, RootOk;
    var (k0, x) := Found(s, e);
    assert DotsOk(s, d);
    OnlyName(s, e.dp, k0, x, d, k);
  }

  lemma Cleared(s: State, e: Event)
    requires e.Unlink? && Enabled(s, e) && Ready(s, e)
    ensures e.dp in Next(s, e).nodes
    ensures Next(s, e).nodes[e.dp].entries == s.nodes[e.dp].entries[Found(s, e).0 := Entry(0, "")]
  {
  }

  lemma OneNameStep(s: State, e: Event)
    requires Inv(s) && Enabled(s, e) && Ready(s, e)
    ensures OneName(Next(s, e))
  {
    hide Inv, Next, Enabled, Ready, OneNameAt;
    forall d, j, k | LiveDir(Next(s, e), d) && 2 <= j < k < |Next(s, e).nodes[d].entries|
      ensures OneNameAt(Next(s, e), d, j, k)
    {
      LiveStep(s, e, d);
      if LiveDir(s, d) {
        OneNameAtStep(s, e, d, j, k);
      } else {
        NodeStep(s, e, d);
      }
    }
  }

  lemma OneNameAtStep(s: State, e: Event, d: nat, j: nat, k: nat)
    requires Inv(s) && Enabled(s, e) && Ready(s, e) && LiveDir(Next(s, e), d) && LiveDir(s, d)
    requires 2 <= j < k < |Next(s, e).nodes[d].entries|
    ensures OneNameAt(Next(s, e), d, j, k)
  {
    hide Counted, Rooted, Named, Next, Enabled;
    SlotStep(s, e, d, j);
    SlotStep(s, e, d, k);
    var x := Next(s, e).nodes[d].entries[j].inum;
    NodeStep(s, e, x);
    assert k < |s.nodes[d].entries| ==> OneNameAt(s, d, j, k);
    assert k < |s.nodes[d].entries| ==> SlotOk(s, d, k);
    assert j < |s.nodes[d].entries| ==> SlotOk(s, d, j);
    if e.Create? || e.LinkEnd? {
      NewName(s, e);
    }
    if e.Create? {
      CreateIsNew(s, e);
    }
  }

  lemma CreateIsNew(s: State, e: Event)
    requires e.Create? && Enabled(s, e)
    ensures e.x !in s.nodes && e.x != 0
  {
  }

  lemma NamedStep(s: State, e: Event)
    requires Inv(s) && Enabled(s, e) && Ready(s, e)
    ensures Named(Next(s, e))
  {
    hide Inv, Next, Enabled, Ready, NamedIn;
    forall c | LiveDir(Next(s, e), c) && c != ROOT && |Next(s, e).nodes[c].entries| >= 2
      ensures NamedIn(Next(s, e), c, Parent(Next(s, e), c))
    {
      LiveStep(s, e, c);
      if LiveDir(s, c) {
        NamedInStep(s, e, c);
      } else {
        NewlyNamed(s, e);
      }
    }
  }

  lemma NamedInStep(s: State, e: Event, c: nat)
    requires Inv(s) && Enabled(s, e) && Ready(s, e) && LiveDir(s, c) && LiveDir(Next(s, e), c) && c != ROOT
    ensures |Next(s, e).nodes[c].entries| >= 2 && NamedIn(Next(s, e), c, Parent(Next(s, e), c))
  {
    hide Counted, Rooted, OneName, SlotsOk, Next, Enabled;
    ParentStays(s, e, c);
    var p := Parent(s, c);
    assert NamedIn(s, c, p);
    var k :| 2 <= k < |s.nodes[p].entries| && s.nodes[p].entries[k].inum == c;
    LiveStep(s, e, c);
    SlotStays(s, e, p, k);
  }

  lemma NewlyNamed(s: State, e: Event)
    requires Enabled(s, e) && Ready(s, e) && e.Create? && e.typ == Dir
    ensures LiveDir(Next(s, e), e.x) && |Next(s, e).nodes[e.x].entries| >= 2
    ensures Parent(Next(s, e), e.x) == e.dp && NamedIn(Next(s, e), e.x, e.dp)
  {
    NodeStep(s, e, e.x);
    var s' := Next(s, e);
    assert s'.nodes[e.dp].entries[NewSlot(s, e.dp).k].inum == e.x;
  }

  lemma {:induction false} ClimbsStep(s: State, e: Event, d: nat, n: nat)
    requires Inv(s) && Enabled(s, e) && Ready(s, e) && LiveDir(Next(s, e), d) && Climbs(s, d, n)
    ensures Climbs(Next(s, e), d, n)
    decreases n
  {
    hide Inv, Next, Enabled, Ready;
    if n > 0 {
      ParentStays(s, e, d);
      ClimbsStep(s, e, Parent(s, d), n - 1);
    }
  }

  lemma RootedStep(s: State, e: Event)
    requires Inv(s) && Enabled(s, e) && Ready(s, e)
    ensures Rooted(Next(s, e))
  {
    hide Counted, OneName, SlotsOk, Named, Next, Enabled, Ready, Climbs;
    forall d | LiveDir(Next(s, e), d) ensures exists n: nat :: Climbs(Next(s, e), d, n) {
      LiveStep(s, e, d);
      if LiveDir(s, d) {
        var n: nat :| Climbs(s, d, n);
        ClimbsStep(s, e, d, n);
      } else {
        NewClimbs(s, e);
      }
    }
  }

  lemma NewClimbs(s: State, e: Event)
    requires Inv(s) && Enabled(s, e) && Ready(s, e) && e.Create? && e.typ == Dir
    ensures exists n: nat :: Climbs(Next(s, e), e.x, n)
  {
    hide Counted, OneName, SlotsOk, Named, Next;
    LiveStep(s, e, e.dp);
    LiveStep(s, e, e.x);
    NodeStep(s, e, e.x);
    var n: nat :| Climbs(s, e.dp, n);
    ClimbsStep(s, e, e.dp, n);
    assert Climbs(Next(s, e), e.x, n + 1);
  }

  lemma RootOkStep(s: State, e: Event)
    requires Inv(s) && Enabled(s, e) && Ready(s, e)
    ensures RootOk(Next(s, e))
  {
    hide Counted, OneName, SlotsOk, Named, Next, Enabled, Rooted;
    LiveStep(s, e, ROOT);
    ParentStays(s, e, ROOT);
  }

  lemma StepKeeps(s: State, e: Event)
    requires Inv(s) && Enabled(s, e)
    ensures Inv(Next(s, e))
  {
    hide Counted, Dotted, SlotsOk, OneName, Named, Rooted, LinkingOk, RootOk, Next, Enabled, Ready;
    InvReady(s, e);
    CountedStep(s, e);
    DottedStep(s, e);
    SlotsOkStep(s, e);
    OneNameStep(s, e);
    NamedStep(s, e);
    RootedStep(s, e);
    LinkingOkStep(s, e);
    RootOkStep(s, e);
  }

  // ---------------------------------------------------------------------------------------------
  // Whole runs

  lemma BootInv(s: State)
    requires Boot(s)
    ensures Inv(s)
  {
    hide Refs;
    RefsAre(s, ROOT, {Slot(ROOT, 1)});
    assert CountOk(s, ROOT);
    assert Climbs(s, ROOT, 0);
  }

  lemma {:induction false} RunInv(s: State, es: seq<Event>)
    requires Boot(s) && Feasible(s, es)
    ensures Inv(After(s, es))
    decreases |es|
  {
    hide Inv, Next, Enabled, Boot;
    if es == [] {
      BootInv(s);
    } else {
      RunInv(s, es[..|es| - 1]);
      StepKeeps(After(s, es[..|es| - 1]), es[|es| - 1]);
    }
  }

  /** In every reachable state an inode's link count is the number of slots naming it, other than as ".",
      in linked directories, plus the links in progress. */
  lemma LinkCountsAreRight(s: State, es: seq<Event>, x: nat)
    requires Boot(s) && Feasible(s, es) && x in After(s, es).nodes
    ensures After(s, es).nodes[x].nlink == |Refs(After(s, es), x)| + After(s, es).linking[x]
  {
    RunInv(s, es);
    assert CountOk(After(s, es), x);
  }

  /** In every reachable state the linked directories are a tree: each but the root is named by exactly
      one slot, its parent's, its ".." is that parent, and following ".." ends at the root. */
  lemma DirectoriesAreATree(s: State, es: seq<Event>, c: nat)
    requires Boot(s) && Feasible(s, es) && LiveDir(After(s, es), c)
    ensures var z := After(s, es);
            && |z.nodes[c].entries| >= 2 && z.nodes[c].entries[0] == Entry(c, ".") && z.nodes[c].entries[1].name == ".."
            && (exists n: nat :: Climbs(z, c, n))
            && (c != ROOT ==> exists k: nat :: NamesOnce(z, c, Parent(z, c), k))
  {
    RunInv(s, es);
    var z := After(s, es);
    assert DotsOk(z, c);
    if c != ROOT {
      var p := Parent(z, c);
      assert NamedIn(z, c, p);
      var k: nat :| 2 <= k < |z.nodes[p].entries| && z.nodes[p].entries[k].inum == c;
      NamedOnce(z, c, p, k);
    }
  }

  /** Slot `k` of `p` names directory `c`, and no other slot but the dots of directories does. */
  ghost predicate NamesOnce(s: State, c: nat, p: nat, k: nat) {
    && LiveDir(s, p) && 2 <= k < |s.nodes[p].entries| && s.nodes[p].entries[k].inum == c
    && forall d: nat, j: nat :: j >= 2 && Refers(s, d, j, c) ==> d == p && j == k
  }

  lemma NamedOnce(s: State, c: nat, p: nat, k: nat)
    requires Inv(s) && LiveDir(s, c) && LiveDir(s, p) && 2 <= k < |s.nodes[p].entries|
    requires s.nodes[p].entries[k].inum == c
    ensures NamesOnce(s, c, p, k)
  {
    hide Rooted, Counted, Named;
    assert SlotOk(s, p, k) && DotsOk(s, c);
    forall d: nat, j: nat | j >= 2 && Refers(s, d, j, c) ensures d == p && j == k {
      assert SlotOk(s, d, j);
      assert j < k ==> OneNameAt(s, p, j, k);
      assert k < j ==> OneNameAt(s, p, k, j);
    }
  }

  /** What unlink finds has a link left, so its panic is unreachable; and an inode is freed only when no
      linked directory names it. */
  lemma NoDanglingNames(s: State, es: seq<Event>, d: nat, k: nat, x: nat)
    requires Boot(s) && Feasible(s, es) && Refers(After(s, es), d, k, x)
    ensures x in After(s, es).nodes && After(s, es).nodes[x].nlink >= 1
    ensures !Enabled(After(s, es), Free(x))
  {
    hide Inv, Refers, Refs;
    RunInv(s, es);
    var z := After(s, es);
    InRefs(z, d, k, x);
    if x !in z.nodes {
      NoRefs(z, x);
      assert false;
    }
    CountAt(z, x);
    assert Refs(z, x) != {};
  }

  // ---------------------------------------------------------------------------------------------
  // Acting in a directory that has been removed

  /** create keeps the invariant if and only if its directory is still linked.  The code does not look:
      a process whose current directory was removed can still create in it. */
  lemma CreateKeepsIff(s: State, dp: nat, name: string, typ: Type, x: nat)
    requires Inv(s) && dp in s.nodes && s.nodes[dp].typ == Dir && x != 0 && x !in s.nodes
    requires Lookup(s.nodes[dp].entries, name).None?
    ensures Inv(Created(s, dp, name, typ, x)) <==> s.nodes[dp].nlink > 0
  {
    hide Inv;
    if s.nodes[dp].nlink > 0 {
      StepKeeps(s, Create(dp, name, typ, x));
    } else if typ == Dir {
      OrphanDirectory(s, dp, name, x);
    } else {
      OrphanFile(s, dp, name, typ, x);
    }
  }

  lemma OrphanFile(s: State, dp: nat, name: string, typ: Type, x: nat)
    requires Inv(s) && dp in s.nodes && s.nodes[dp].nlink == 0 && x != 0 && x !in s.nodes && typ != Dir
    ensures !Inv(Created(s, dp, name, typ, x))
  {
    hide Inv;
    var s' := Created(s, dp, name, typ, x);
    NoRefs(s, x);
    forall d: nat, k: nat ensures !Refers(s', d, k, x) {
      InRefs(s, d, k, x);
    }
    RefsAre(s', x, {});
    if Inv(s') {
      CountAt(s', x);
      assert false;
    }
  }

  lemma OrphanDirectory(s: State, dp: nat, name: string, x: nat)
    requires Inv(s) && dp in s.nodes && s.nodes[dp].typ == Dir && s.nodes[dp].nlink == 0 && x != 0 && x !in s.nodes
    ensures !Inv(Created(s, dp, name, Dir, x))
  {
    hide Inv, Linked;
    var s' := Created(s, dp, name, Dir, x);
    RootIsLive(s);
    if Inv(s') {
      ParentNames(s', dp);
      var p := Parent(s', dp);
      var k :| 2 <= k < |s'.nodes[p].entries| && s'.nodes[p].entries[k].inum == dp;
      if p == dp {
        NotItsOwnParent(s', dp);
      } else {
        SlotNamesLive(s, p, k);
      }
      assert false;
    }
  }

  lemma RootIsLive(s: State)
    requires Inv(s)
    ensures LiveDir(s, ROOT) && 0 !in s.nodes
  {
  }

  lemma SlotNamesLive(s: State, d: nat, k: nat)
    requires Inv(s) && LiveDir(s, d) && 2 <= k < |s.nodes[d].entries|
    ensures IsDir(s, s.nodes[d].entries[k].inum) ==> LiveDir(s, s.nodes[d].entries[k].inum)
  {
    assert SlotOk(s, d, k);
  }

  lemma ParentNames(s: State, c: nat)
    requires Inv(s) && LiveDir(s, c) && c != ROOT
    ensures |s.nodes[c].entries| >= 2 && NamedIn(s, c, Parent(s, c))
  {
    assert DotsOk(s, c);
  }

  lemma NotItsOwnParent(s: State, d: nat)
    requires Inv(s) && LiveDir(s, d) && d != ROOT && |s.nodes[d].entries| >= 2
    ensures Parent(s, d) != d
  {
    if Parent(s, d) == d {
      var n: nat :| Climbs(s, d, n);
      Stuck(s, d, n);
      assert false;
    }
  }

  lemma {:induction false} Stuck(s: State, d: nat, n: nat)
    requires d != ROOT && LiveDir(s, d) && |s.nodes[d].entries| >= 2 && Parent(s, d) == d
    ensures !Climbs(s, d, n)
    decreases n
  {
    if n > 0 {
      Stuck(s, d, n - 1);
    }
  }

  /** The same for the end of link. */
  lemma LinkKeepsIff(s: State, dp: nat, name: string, x: nat)
    requires Inv(s) && dp in s.nodes && s.nodes[dp].typ == Dir && x in s.linking
    requires Lookup(s.nodes[dp].entries, name).None?
    ensures Inv(LinkedIn(s, dp, name, x)) <==> s.nodes[dp].nlink > 0
  {
    hide Inv;
    if s.nodes[dp].nlink > 0 {
      StepKeeps(s, LinkEnd(dp, name, x));
    } else {
      OrphanLink(s, dp, name, x);
    }
  }

  lemma LinkingExists(s: State, x: nat)
    requires Inv(s) && x in s.linking
    ensures x in s.nodes
  {
  }

  lemma OrphanLink(s: State, dp: nat, name: string, x: nat)
    requires Inv(s) && dp in s.nodes && s.nodes[dp].nlink == 0 && x in s.linking
    ensures !Inv(LinkedIn(s, dp, name, x))
  {
    hide Inv, Refs, Linked, LinkingOk;
    var s' := LinkedIn(s, dp, name, x);
    LinkingExists(s, x);
    forall d: nat, k: nat ensures Refers(s', d, k, x) <==> Slot(d, k) in Refs(s, x) {
      InRefs(s, d, k, x);
    }
    RefsAre(s', x, Refs(s, x));
    CountAt(s, x);
    if Inv(s') {
      CountAt(s', x);
      assert false;
    }
  }

  /** Such a directory is reachable: make it, remove it while a process still has it. */
  lemma RemovedDirectoryIsReachable(s: State)
    requires Boot(s)
    ensures var es := [Create(ROOT, "d", Dir, 2), Unlink(ROOT, "d")];
            && Feasible(s, es) && 2 in After(s, es).nodes
            && After(s, es).nodes[2].typ == Dir && After(s, es).nodes[2].nlink == 0
  {
    var e1, e2 := Create(ROOT, "d", Dir, 2), Unlink(ROOT, "d");
    var root := [Entry(ROOT, "."), Entry(ROOT, "..")];
    assert Lookup(root, "d", 2).None?;
    assert Lookup(root, "d", 1).None?;
    assert Lookup(root, "d").None?;
    assert EmptySlot(root, 2) == 2;
    assert EmptySlot(root, 1) == 2;
    assert EmptySlot(root) == 2;
    assert Enabled(s, e1);
    var t := Next(s, e1);
    var full := [Entry(ROOT, "."), Entry(ROOT, ".."), Entry(2, "d")];
    assert t.nodes[ROOT].entries == full;
    assert Lookup(full, "d", 2) == Some(2);
    assert Lookup(full, "d", 1) == Some(2);
    assert Lookup(full, "d") == Some(2);
    assert Enabled(t, e2);
    assert [e1, e2][..1] == [e1] && [e1][..0] == [];
    assert After(s, [e1]) == t;
    assert Feasible(s, [e1]);
    assert Feasible(s, [e1, e2]);
    assert After(s, [e1, e2]) == Next(t, e2);
  }

  predicate RemovedDir(s: State, d: nat) { d in s.nodes && s.nodes[d].typ == Dir && s.nodes[d].nlink == 0 }

  /** A removed directory still holds "." and "..", and nothing else. */
  predicate RemovedOk(s: State, d: nat)
    requires d in s.nodes
  {
    var es := s.nodes[d].entries;
    |es| >= 2 && es[0] == Entry(d, ".") && es[1].name == ".." && es[1].inum != 0 && IsEmpty(es)
  }

  ghost predicate Bare(s: State) { forall d :: RemovedDir(s, d) ==> RemovedOk(s, d) }

  lemma BareStep(s: State, e: Event)
    requires Inv(s) && Bare(s) && Enabled(s, e)
    ensures Bare(Next(s, e))
  {
    hide Counted, SlotsOk, OneName, Named, Rooted, Refs;
    InvReady(s, e);
    forall d | RemovedDir(Next(s, e), d) ensures RemovedOk(Next(s, e), d) {
      if RemovedDir(s, d) {
        StaysRemoved(s, e, d);
      } else {
        NewlyRemoved(s, e, d);
        assert DotsOk(s, d);
      }
    }
  }

  lemma StaysRemoved(s: State, e: Event, d: nat)
    requires Enabled(s, e) && Ready(s, e) && RemovedDir(s, d) && d in Next(s, e).nodes
    ensures Next(s, e).nodes[d].entries == s.nodes[d].entries
  {
    hide Lookup, EmptySlot;
  }

  lemma NewlyRemoved(s: State, e: Event, d: nat)
    requires Enabled(s, e) && Ready(s, e) && RemovedDir(Next(s, e), d) && !RemovedDir(s, d)
    ensures LiveDir(s, d) && e.Unlink? && d == Found(s, e).1 && Leaf(s, e.dp, d)
    ensures e.dp != 0 && Next(s, e).nodes[d].entries == s.nodes[d].entries
  {
    LiveStep(s, e, d);
    NodeStep(s, e, d);
  }

  lemma {:induction false} RunBare(s: State, es: seq<Event>)
    requires Boot(s) && Feasible(s, es)
    ensures Bare(After(s, es))
    decreases |es|
  {
    hide Inv, Next, Enabled;
    if es != [] {
      RunBare(s, es[..|es| - 1]);
      RunInv(s, es[..|es| - 1]);
      BareStep(After(s, es[..|es| - 1]), es[|es| - 1]);
    }
  }

  /** What a slot in use can name, in any directory a process may hold.  Only one can name an inode
      that is gone: ".." of a removed directory. */
  lemma OnlyRemovedDotDotDangles(s: State, es: seq<Event>, d: nat, k: nat)
    requires Boot(s) && Feasible(s, es) && IsDir(After(s, es), d)
    requires k < |After(s, es).nodes[d].entries| && After(s, es).nodes[d].entries[k].inum != 0
    ensures After(s, es).nodes[d].entries[k].inum in After(s, es).nodes || (RemovedDir(After(s, es), d) && k == 1)
  {
    RunInv(s, es);
    RunBare(s, es);
    SlotNames(After(s, es), d, k);
  }

  lemma SlotNames(s: State, d: nat, k: nat)
    requires Inv(s) && Bare(s) && IsDir(s, d) && k < |s.nodes[d].entries| && s.nodes[d].entries[k].inum != 0
    ensures s.nodes[d].entries[k].inum in s.nodes || (RemovedDir(s, d) && k == 1)
  {
    hide Counted, OneName, Named, Rooted;
    if LiveDir(s, d) {
      assert DotsOk(s, d);
      assert k >= 2 ==> SlotOk(s, d, k);
    } else {
      assert RemovedOk(s, d);
    }
  }

  /** Every used slot of every directory, removed or not, names an inode that exists. */
  ghost predicate Whole(s: State) {
    forall d, k :: IsDir(s, d) && 0 <= k < |s.nodes[d].entries| && s.nodes[d].entries[k].inum != 0 ==>
      s.nodes[d].entries[k].inum in s.nodes
  }

  /** The step frees an inode that ".." of another, removed directory still names. */
  ghost predicate Strands(s: State, e: Event) {
    e.Free? && exists d :: RemovedDir(s, d) && d != e.x && NamesParent(s, d, e.x)
  }

  predicate NamesParent(s: State, d: nat, x: nat)
    requires d in s.nodes
  {
    |s.nodes[d].entries| >= 2 && Parent(s, d) == x
  }

  /** The exact condition: a step leaves no slot naming an inode that is gone if and only if it does not free
      the parent of a removed directory that is still held. */
  lemma WholeStepIff(s: State, e: Event)
    requires Inv(s) && Bare(s) && Whole(s) && Enabled(s, e)
    ensures Whole(Next(s, e)) <==> !Strands(s, e)
  {
    hide Counted, SlotsOk, OneName, Named, Rooted, Refs, Dotted;
    var s' := Next(s, e);
    InvReady(s, e);
    if Strands(s, e) {
      var d :| RemovedDir(s, d) && d != e.x && NamesParent(s, d, e.x);
      StaysRemoved(s, e, d);
      assert IsDir(s', d) && s'.nodes[d].entries[1].inum == e.x && e.x != 0 && e.x !in s'.nodes;
    } else {
      forall d, k | IsDir(s', d) && 0 <= k < |s'.nodes[d].entries| && s'.nodes[d].entries[k].inum != 0
        ensures s'.nodes[d].entries[k].inum in s'.nodes
      {
        WholeSlot(s, e, d, k);
      }
    }
  }

  lemma WholeSlot(s: State, e: Event, d: nat, k: nat)
    requires Inv(s) && Bare(s) && Whole(s) && Enabled(s, e) && Ready(s, e) && !Strands(s, e)
    requires IsDir(Next(s, e), d) && k < |Next(s, e).nodes[d].entries| && Next(s, e).nodes[d].entries[k].inum != 0
    ensures Next(s, e).nodes[d].entries[k].inum in Next(s, e).nodes
  {
    hide Counted, SlotsOk, OneName, Named, Rooted, Refs, Dotted, Strands, Bare;
    var s' := Next(s, e);
    var y := s'.nodes[d].entries[k].inum;
    if e.Free? {
      NotFreed(s, e, d, k);
    } else {
      UsedSlot(s, e, d, k);
      NodeStep(s, e, y);
    }
  }

  lemma NotFreed(s: State, e: Event, d: nat, k: nat)
    requires Inv(s) && Bare(s) && Enabled(s, e) && e.Free? && !Strands(s, e)
    requires IsDir(s, d) && d != e.x && k < |s.nodes[d].entries|
    ensures s.nodes[d].entries[k].inum != e.x
  {
    hide Counted, SlotsOk, OneName, Named, Rooted, Refs, Dotted, Bare;
    if s.nodes[d].entries[k].inum == e.x {
      if LiveDir(s, d) {
        NamedNotFree(s, d, k, e.x);
      } else {
        OnlyItsChild(s, d, k, e.x);
      }
      assert false;
    }
  }

  /** A slot in use after a step was in use before, or was just written. */
  lemma UsedSlot(s: State, e: Event, d: nat, k: nat)
    requires Enabled(s, e) && Ready(s, e) && !e.Free? && IsDir(Next(s, e), d)
    requires k < |Next(s, e).nodes[d].entries| && Next(s, e).nodes[d].entries[k].inum != 0
    ensures var y := Next(s, e).nodes[d].entries[k].inum;
            || (IsDir(s, d) && k < |s.nodes[d].entries| && s.nodes[d].entries[k].inum == y)
            || (e.Create? && (y == e.x || y == e.dp)) || (e.LinkEnd? && y == e.x)
    ensures e.Create? ==> e.dp in s.nodes
  {
    hide Lookup, EmptySlot;
  }

  /** What a linked directory names has a link. */
  lemma NamedNotFree(s: State, d: nat, k: nat, y: nat)
    requires Inv(s) && LiveDir(s, d) && k < |s.nodes[d].entries| && s.nodes[d].entries[k].inum == y && y in s.nodes
    ensures s.nodes[y].nlink > 0
  {
    hide SlotsOk, OneName, Named, Rooted, Refs, Counted;
    assert DotsOk(s, d);
    if k >= 2 {
      assert s.nodes[d].entries[k].name != ".";
      RefersCounts(s, d, k, y);
    }
  }

  lemma OnlyItsChild(s: State, d: nat, k: nat, y: nat)
    requires Bare(s) && RemovedDir(s, d) && k < |s.nodes[d].entries|
    requires s.nodes[d].entries[k].inum == y && y != 0 && y != d
    ensures NamesParent(s, d, y)
  {
    assert RemovedOk(s, d);
  }

  /** Along a run that strands nobody, every name leads to an inode. */
  lemma {:induction false} WholeRun(s: State, es: seq<Event>)
    requires Boot(s) && Feasible(s, es)
    requires forall n :: 0 <= n < |es| ==> Feasible(s, es[..n]) && !Strands(After(s, es[..n]), es[n])
    ensures Whole(After(s, es))
    decreases |es|
  {
    hide Inv, Bare, Next, Enabled, Strands;
    if es != [] {
      var es0 := es[..|es| - 1];
      forall n | 0 <= n < |es0| ensures Feasible(s, es0[..n]) && !Strands(After(s, es0[..n]), es0[n]) {
        assert es0[..n] == es[..n] && es0[n] == es[n];
      }
      WholeRun(s, es0);
      RunInv(s, es0);
      RunBare(s, es0);
      WholeStepIff(After(s, es0), es[|es| - 1]);
    }
  }

  /** A ".." that names nothing goes on naming nothing until create takes the number again, for whatever it
      makes; from then on it names a stranger. */
  lemma DanglesUntilReused(s: State, e: Event, d: nat)
    requires Inv(s) && Bare(s) && Enabled(s, e) && RemovedDir(s, d) && d in Next(s, e).nodes
    requires |s.nodes[d].entries| >= 2 && Parent(s, d) !in s.nodes
    ensures Next(s, e).nodes[d].entries == s.nodes[d].entries
    ensures Parent(s, d) in Next(s, e).nodes <==> e.Create? && e.x == Parent(s, d)
  {
    hide Counted, SlotsOk, OneName, Named, Rooted, Refs, Dotted;
    InvReady(s, e);
    StaysRemoved(s, e, d);
    NodeStep(s, e, Parent(s, d));
  }

  function Dots(d: nat, p: nat): seq<Entry> { [Entry(d, "."), Entry(p, "..")] }

  lemma FirstName(d: nat, p: nat, name: string)
    requires d != 0 && p != 0 && name != "." && name != ".."
    ensures Lookup(Dots(d, p), name).None? && EmptySlot(Dots(d, p)) == 2
  {
    var es := Dots(d, p);
    assert Lookup(es, name, 2).None? && EmptySlot(es, 2) == 2;
    assert Lookup(es, name, 1).None? && EmptySlot(es, 1) == 2;
  }

  lemma ThirdName(d: nat, p: nat, x: nat, name: string)
    requires x != 0 && name != "." && name != ".."
    ensures Lookup(Dots(d, p) + [Entry(x, name)], name) == Some(2)
  {
    var es := Dots(d, p) + [Entry(x, name)];
    assert Lookup(es, name, 2) == Some(2);
    assert Lookup(es, name, 1) == Some(2);
  }

  /** mkdir in a directory that holds nothing yet. */
  lemma FirstMkdir(s: State, dp: nat, p: nat, name: string, x: nat)
    requires LiveDir(s, dp) && s.nodes[dp].entries == Dots(dp, p) && dp != 0 && p != 0
    requires x != 0 && x !in s.nodes && name != "." && name != ".."
    ensures Enabled(s, Create(dp, name, Dir, x))
    ensures Next(s, Create(dp, name, Dir, x)) ==
            s.(nodes := s.nodes[x := Node(Dir, 1, Dots(x, dp))]
                               [dp := Node(Dir, s.nodes[dp].nlink + 1, Dots(dp, p) + [Entry(x, name)])])
  {
    hide Lookup, EmptySlot;
    FirstName(dp, p, name);
  }

  /** rmdir of the only name in a directory. */
  lemma OnlyRmdir(s: State, dp: nat, p: nat, name: string, x: nat)
    requires LiveDir(s, dp) && s.nodes[dp].entries == Dots(dp, p) + [Entry(x, name)]
    requires x != 0 && x != dp && IsDir(s, x) && IsEmpty(s.nodes[x].entries) && name != "." && name != ".."
    ensures Enabled(s, Unlink(dp, name))
    ensures Next(s, Unlink(dp, name)) ==
            s.(nodes := s.nodes[dp := Node(Dir, Less(s.nodes[dp].nlink), Dots(dp, p) + [Entry(0, "")])]
                               [x := s.nodes[x].(nlink := Less(s.nodes[x].nlink))])
  {
    hide Lookup, EmptySlot;
    ThirdName(dp, p, x, name);
    assert (Dots(dp, p) + [Entry(x, name)])[2 := Entry(0, "")] == Dots(dp, p) + [Entry(0, "")];
  }

  lemma RunSnoc(s: State, es: seq<Event>, e: Event)
    requires Feasible(s, es) && Enabled(After(s, es), e)
    ensures Feasible(s, es + [e]) && After(s, es + [e]) == Next(After(s, es), e)
  {
    assert (es + [e])[..|es + [e]| - 1] == es;
  }

  /** And it can: make d and d/e, remove both while a process still holds e, and let go of d. */
  lemma RemovedDotDotCanDangle(s: State)
    requires Boot(s)
    ensures var es := [] + [Create(ROOT, "d", Dir, 2)] + [Create(2, "e", Dir, 3)] + [Unlink(2, "e")]
                      + [Unlink(ROOT, "d")] + [Free(2)];
            Feasible(s, es) && RemovedDir(After(s, es), 3) && |After(s, es).nodes[3].entries| == 2
            && After(s, es).nodes[3].entries[1] == Entry(2, "..") && 2 !in After(s, es).nodes
            && LiveDir(After(s, es), ROOT) && Lookup(After(s, es).nodes[ROOT].entries, "f").None?
  {
    hide Next, Enabled, Lookup, EmptySlot, After, Feasible;
    var e1, e2, e3 := Create(ROOT, "d", Dir, 2), Create(2, "e", Dir, 3), Unlink(2, "e");
    var e4, e5 := Unlink(ROOT, "d"), Free(2);
    FirstMkdir(s, ROOT, ROOT, "d", 2);
    var s1 := Next(s, e1);
    FirstMkdir(s1, 2, ROOT, "e", 3);
    var s2 := Next(s1, e2);
    OnlyRmdir(s2, 2, ROOT, "e", 3);
    var s3 := Next(s2, e3);
    OnlyRmdir(s3, ROOT, ROOT, "d", 2);
    var s4 := Next(s3, e4);
    LetGo(s4, 2);
    assert s4.nodes[ROOT] == Node(Dir, 1, Dots(ROOT, ROOT) + [Entry(0, "")]);
    NoNameLeft(ROOT, ROOT, "f");
    Started(s);
    RunSnoc(s, [], e1);
    RunSnoc(s, [] + [e1], e2);
    RunSnoc(s, [] + [e1] + [e2], e3);
    RunSnoc(s, [] + [e1] + [e2] + [e3], e4);
    RunSnoc(s, [] + [e1] + [e2] + [e3] + [e4], e5);
  }

  /** And then a file is created with the number of d: ".." of e names that file. */
  lemma RemovedDotDotNamesAStranger(s: State)
    requires Boot(s)
    ensures var es := [] + [Create(ROOT, "d", Dir, 2)] + [Create(2, "e", Dir, 3)] + [Unlink(2, "e")]
                      + [Unlink(ROOT, "d")] + [Free(2)] + [Create(ROOT, "f", File, 2)];
            Feasible(s, es) && RemovedDir(After(s, es), 3) && |After(s, es).nodes[3].entries| == 2
            && After(s, es).nodes[3].entries[1] == Entry(2, "..")
            && 2 in After(s, es).nodes && After(s, es).nodes[2].typ == File
  {
    hide Next, Enabled, Lookup, EmptySlot, After, Feasible;
    RemovedDotDotCanDangle(s);
    var es := [] + [Create(ROOT, "d", Dir, 2)] + [Create(2, "e", Dir, 3)] + [Unlink(2, "e")]
              + [Unlink(ROOT, "d")] + [Free(2)];
    var z := After(s, es);
    MakesFile(z, "f", 2);
    RunSnoc(s, es, Create(ROOT, "f", File, 2));
  }

  lemma MakesFile(s: State, name: string, x: nat)
    requires LiveDir(s, ROOT) && x != 0 && x !in s.nodes && x != ROOT && Lookup(s.nodes[ROOT].entries, name).None?
    ensures Enabled(s, Create(ROOT, name, File, x))
    ensures var t := Next(s, Create(ROOT, name, File, x));
            && x in t.nodes && t.nodes[x].typ == File
            && forall y :: y in s.nodes && y != ROOT ==> y in t.nodes && t.nodes[y] == s.nodes[y]
  {
    hide Lookup, EmptySlot;
  }

  lemma NoNameLeft(d: nat, p: nat, name: string)
    requires name != "." && name != ".."
    ensures Lookup(Dots(d, p) + [Entry(0, "")], name).None?
  {
    var es := Dots(d, p) + [Entry(0, "")];
    assert Lookup(es, name, 3).None?;
    assert Lookup(es, name, 2).None?;
    assert Lookup(es, name, 1).None?;
  }

  lemma LetGo(s: State, x: nat)
    requires x in s.nodes && s.nodes[x].nlink == 0
    ensures Enabled(s, Free(x)) && Next(s, Free(x)) == s.(nodes := s.nodes - {x})
  {
  }

  lemma Started(s: State)
    ensures Feasible(s, []) && After(s, []) == s
  {
  }
}
