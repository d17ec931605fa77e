/**
 * Path names: skipelem's loops split a path at its slashes, and namex walks the elements through the
 * directories.
 */
module Paths {
  import opened Common
  import opened DirTree
  import opened Namespace

  const DIRSIZ: nat := 14

  function Truncated(name: string): string { if |name| >= DIRSIZ then name[..DIRSIZ] else name }

  /** How many characters from the front of `p` are not a slash. */
  function Span(p: string): (n: nat)
    ensures n <= |p| && (n < |p| ==> p[n] == '/') && forall i :: 0 <= i < n ==> p[i] != '/'
  {
    if p == "" || p[0] == '/' then 0 else 1 + Span(p[1..])
  }

  /** The elements of a path: its maximal runs of other characters than the slash, cut to DIRSIZ. */
  function Elems(p: string): (es: seq<string>)
    ensures forall i :: 0 <= i < |es| ==> es[i] != "" && |es[i]| <= DIRSIZ && '/' !in es[i]
    decreases |p|
  {
    if p == "" then []
    else if p[0] == '/' then Elems(p[1..])
    else [Truncated(p[..Span(p)])] + Elems(p[Span(p)..])
  }

  lemma SpanBefore(p: string, q: string)
    requires q == "" || q[0] == '/'
    ensures Span(p + q) == Span(p)
  {
    if p != "" && p[0] != '/' {
      assert (p + q)[1..] == p[1..] + q;
    } else if p == "" {
      assert p + q == q;
    }
  }

  /** Splitting is a homomorphism: the elements of "p/q" are those of p and then those of q. */
  lemma {:induction false} ElemsJoin(p: string, q: string)
    ensures Elems(p + "/" + q) == Elems(p) + Elems(q)
    decreases |p|
  {
    hide Elems, Span, Truncated;
    var all := p + "/" + q;
    ElemsFirst(all);
    if p == "" {
      NoElems(p);
      assert all[0] == '/' && all[1..] == q;
      assert [] + Elems(q) == Elems(q);
    } else if p[0] == '/' {
      assert all[0] == '/' && all[1..] == p[1..] + "/" + q;
      ElemsJoin(p[1..], q);
      ElemsFirst(p);
    } else {
      assert all == p + ("/" + q);
      SpanBefore(p, "/" + q);
      ElemsFirst(p);
      var n := Span(p);
      assert all[0] == p[0] && all[..n] == p[..n] && all[n..] == p[n..] + "/" + q;
      ElemsJoin(p[n..], q);
    }
  }

  lemma NoElems(p: string)
    requires p == ""
    ensures Elems(p) == []
  {
  }

  /** The first step of splitting. */
  lemma ElemsFirst(p: string)
    requires p != ""
    ensures p[0] == '/' ==> Elems(p) == Elems(p[1..])
    ensures p[0] != '/' ==>
              0 < Span(p) <= |p| && Elems(p) == [Truncated(p[..Span(p)])] + Elems(p[Span(p)..])
  {
  }

  /** A slash-free name of at most DIRSIZ characters is its own only element. */
  lemma ElemsOfName(name: string)
    requires name != "" && '/' !in name && |name| <= DIRSIZ
    ensures Elems(name) == [name]
  {
    assert Span(name) == |name|;
    assert name[..|name|] == name && name[|name|..] == "";
  }

  lemma ElemsSlash(path: string, i: nat)
    requires i < |path| && path[i] == '/'
    ensures Elems(path[i..]) == Elems(path[i + 1..])
  {
    assert path[i..][1..] == path[i + 1..];
  }

  lemma ElemsStart(p: string)
    ensures p == "" ==> Elems(p) == []
    ensures p != "" && p[0] != '/' ==> Elems(p) != []
  {
  }

  lemma ElemsWord(path: string, s: nat, i: nat)
    requires s < i <= |path| && (forall k :: s <= k < i ==> path[k] != '/') && (i < |path| ==> path[i] == '/')
    ensures Elems(path[s..]) == [Truncated(path[s..i])] + Elems(path[i..])
  {
    var p := path[s..];
    assert i < |path| ==> p[i - s] == path[i];
    assert Span(p) == i - s;
    assert p[..i - s] == path[s..i] && p[i - s..] == path[i..];
  }

  /** skipelem: the first element and the rest without leading slashes; None if there is no element. */
  method Skipelem(path: string) returns (r: Option<(string, string)>)
    ensures r.None? <==> Elems(path) == []
    ensures r.Some? ==> [r.value.1] + Elems(r.value.0) == Elems(path) && |r.value.0| < |path|
    ensures r.Some? ==> (r.value.0 == "" <==> |Elems(path)| == 1)
  {
    hide Elems, Span;
    var i := 0;
    assert path[0..] == path;
    while i < |path| && path[i] == '/'
      invariant i <= |path| && Elems(path[i..]) == Elems(path)
    {
      ElemsSlash(path, i);
      i := i + 1;
    }
    ElemsStart(path[i..]);
    if i == |path| {
      return None;
    }
    var s := i;
    while i < |path| && path[i] != '/'
      invariant s <= i <= |path| && (forall k :: s <= k < i ==> path[k] != '/') && (i == s ==> path[i] != '/')
    {
      i := i + 1;
    }
    ElemsWord(path, s, i);
    var name := if i - s >= DIRSIZ then path[s..s + DIRSIZ] else path[s..i];
    assert name == Truncated(path[s..i]);
    ghost var e := i;
    while i < |path| && path[i] == '/'
      invariant e <= i <= |path| && Elems(path[i..]) == Elems(path[e..])
    {
      ElemsSlash(path, i);
      i := i + 1;
    }
    ElemsStart(path[i..]);
    return Some((path[i..], name));
  }

  /** Where a walk ends.  Gone: ilock has panicked "no type", because an inode on the way is free. */
  datatype Walked = Reached(inum: nat) | Missing | Gone

  /** One step of a walk: the inode a directory gives a name. */
  function Enter(nodes: map<nat, Node>, x: nat, name: string): Walked {
    if x !in nodes then Gone else match Given(nodes, x, name) { case Some(y) => Reached(y) case None => Missing }
  }

  function Walk(nodes: map<nat, Node>, x: nat, es: seq<string>): Walked
    decreases |es|
  {
    if es == [] then Reached(x)
    else match Enter(nodes, x, es[0]) { case Reached(y) => Walk(nodes, y, es[1..]) case r => r }
  }

  lemma {:induction false} WalkJoin(nodes: map<nat, Node>, x: nat, es: seq<string>, fs: seq<string>)
    ensures Walk(nodes, x, es + fs) ==
            match Walk(nodes, x, es) { case Reached(y) => Walk(nodes, y, fs) case r => r }
    decreases |es|
  {
    if es == [] {
      assert es + fs == fs;
    } else {
      assert (es + fs)[1..] == es[1..] + fs;
      match Enter(nodes, x, es[0])
      case Reached(y) => WalkJoin(nodes, y, es[1..], fs);
      case _ =>
    }
  }

  datatype Answer = At(inum: nat, name: string) | NotFound | Panic

  /** What namex answers: the inode of the path, or with `parent` the directory that would hold its last
      element, and that element. */
  function Resolve(nodes: map<nat, Node>, x: nat, es: seq<string>, parent: bool): Answer {
    var up := if parent && es != [] then es[..|es| - 1] else es;
    match Walk(nodes, x, up)
    case Missing => NotFound
    case Gone => Panic
    case Reached(y) =>
      if !parent then At(y, "")
      else if es == [] then NotFound
      else if y !in nodes then Panic
      else if nodes[y].typ != Dir then NotFound
      else At(y, es[|es| - 1])
  }

  /** namex.  Without `parent` it ends where the walk of the path ends.  With it, the directory is where the walk of
      all elements but the last ends, and the name is the last element. */
  method Namex(nodes: map<nat, Node>, cwd: nat, path: string, parent: bool) returns (r: Answer)
    ensures r == Resolve(nodes, if path != "" && path[0] == '/' then ROOT else cwd, Elems(path), parent)
    ensures var x, es := if path != "" && path[0] == '/' then ROOT else cwd, Elems(path);
            && (!parent ==> (r.Panic? <==> Walk(nodes, x, es) == Gone))
            && (r.At? && !parent ==> Walk(nodes, x, es) == Reached(r.inum))
            && (r.At? && parent ==>
                  && es != [] && r.name == es[|es| - 1] && Walk(nodes, x, es[..|es| - 1]) == Reached(r.inum)
                  && r.inum in nodes && nodes[r.inum].typ == Dir)
  {
    var ip: nat := if path != "" && path[0] == '/' then ROOT else cwd;
    var rest := path;
    while true
      invariant Resolve(nodes, ip, Elems(rest), parent) ==
                Resolve(nodes, if path != "" && path[0] == '/' then ROOT else cwd, Elems(path), parent)
      invariant parent && rest != path ==> Elems(rest) != []
      decreases |rest|
    {
      var n := Skipelem(rest);
      if n.None? {
        break;
      }
      if ip !in nodes {
        return Panic;                // ilock: no type
      }
      if nodes[ip].typ != Dir {
        return NotFound;
      }
      var (tail, name) := n.value;
      if parent && tail == "" {
        assert Elems(rest) == [name] && Elems(rest)[..0] == [];
        return At(ip, name);
      }
      var next := Lookup(nodes[ip].entries, name);
      StepsInto(nodes, ip, Elems(rest), parent);
      assert Elems(rest)[1..] == Elems(tail);
      if next.None? {
        return NotFound;
      }
      ip := nodes[ip].entries[next.value].inum;
      rest := tail;
    }
    if parent {
      return NotFound;
    }
    return At(ip, "");
  }

  lemma StepsInto(nodes: map<nat, Node>, x: nat, es: seq<string>, parent: bool)
    requires es != [] && (parent ==> |es| > 1)
    ensures Resolve(nodes, x, es, parent) ==
            match Enter(nodes, x, es[0])
            case Missing => NotFound
            case Gone => Panic
            case Reached(y) => Resolve(nodes, y, es[1..], parent)
  {
    assert parent ==> es[..|es| - 1][1..] == es[1..][..|es| - 2];
  }

  /** Finding the parent and then looking the name up in it is finding the path: nameiparent and dirlookup are
      namei. */
  lemma ParentThenLookup(nodes: map<nat, Node>, x: nat, es: seq<string>)
    ensures match Resolve(nodes, x, es, true)
            case At(d, name) => Walk(nodes, x, es) == Enter(nodes, d, name)
            case Panic => Walk(nodes, x, es) == Gone
            case NotFound => es == [] || Walk(nodes, x, es) == Missing
  {
    if es != [] {
      var up, name := es[..|es| - 1], es[|es| - 1];
      assert es == up + [name];
      WalkJoin(nodes, x, up, [name]);
      match Walk(nodes, x, up)
      case Reached(y) =>
        assert [name][1..] == [];
        assert Walk(nodes, y, [name]) == Enter(nodes, y, name);
      case _ =>
    }
  }

  /** Where every name leads to an inode, no path makes namex panic, and what it finds exists. */
  lemma {:induction false} NeverGone(s: State, x: nat, es: seq<string>)
    requires Whole(s) && x in s.nodes
    ensures match Walk(s.nodes, x, es) case Reached(y) => y in s.nodes case Missing => true case Gone => false
    decreases |es|
  {
    if es != [] {
      match Enter(s.nodes, x, es[0])
      case Reached(y) =>
        assert IsDir(s, x);
        NeverGone(s, y, es[1..]);
      case _ =>
    }
  }

  /** The failing run: with a removed directory as the current one, whose parent has been freed, any path
      through ".." makes namex panic, and ".." itself is found and makes its caller's ilock panic. */
  lemma StaleDotDotPanics(s: State, name: string)
    requires Boot(s)
    ensures var es := [] + [Create(ROOT, "d", Dir, 2)] + [Create(2, "e", Dir, 3)] + [Unlink(2, "e")]
                      + [Unlink(ROOT, "d")] + [Free(2)];
            && Feasible(s, es) && 3 in After(s, es).nodes && 2 !in After(s, es).nodes
            && Resolve(After(s, es).nodes, 3, ["..", name], false) == Panic
            && Resolve(After(s, es).nodes, 3, [".."], false) == At(2, "")
  {
    hide Next, Enabled, After, Feasible;
    RemovedDotDotCanDangle(s);
    var es := [] + [Create(ROOT, "d", Dir, 2)] + [Create(2, "e", Dir, 3)] + [Unlink(2, "e")]
              + [Unlink(ROOT, "d")] + [Free(2)];
    RunBare(s, es);
    var z := After(s, es);
    assert RemovedOk(z, 3);
    var ds := z.nodes[3].entries;
    assert Lookup(ds, "..", 1) == Some(1);
    assert Lookup(ds, "..") == Some(1);
    assert Enter(z.nodes, 3, "..") == Reached(2) && Enter(z.nodes, 2, name) == Gone;
    assert ["..", name][1..] == [name];
    assert Walk(z.nodes, 2, [name]) == Gone;
  }

  /** In a tree, going into a directory and then to ".." comes back. */
  lemma DotDotGoesBack(s: State, x: nat, name: string)
    requires Inv(s) && LiveDir(s, x) && name != "." && name != ".."
    ensures match Enter(s.nodes, x, name)
            case Reached(c) => IsDir(s, c) ==> Walk(s.nodes, x, [name, ".."]) == Reached(x)
            case _ => true
  {
    hide Counted, Rooted, OneName, Named;
    var k := Lookup(s.nodes[x].entries, name);
    assert DotsOk(s, x);
    if k.Some? {
      var c := s.nodes[x].entries[k.value].inum;
      AllSlots(s, x, k.value);
      if IsDir(s, c) {
        var es := s.nodes[c].entries;
        assert DotsOk(s, c);
        assert Lookup(es, "..", 1) == Some(1);
        assert Lookup(es, "..") == Some(1);
        assert Enter(s.nodes, c, "..") == Reached(x);
        assert [name, ".."][1..] == [".."];
        assert Walk(s.nodes, c, [".."]) == Walk(s.nodes, x, []);
      }
    }
  }
}
