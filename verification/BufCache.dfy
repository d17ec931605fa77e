/**
 * The buffer cache as a step machine.  Any number of processes get, load, edit, log, write and release
 * buffers, interleaved in any way that follows the caller's rule: a buffer whose data was changed is
 * passed to log_write or bwrite before brelse.
 *
 * The cache is transparent: what a holder reads is what was last put into that block, whatever was
 * recycled or written meanwhile.
 */
module BufCache {
  import opened Common

  datatype Key = Key(dev: nat, blockno: nat)

  /** A buffer of no device (b->dev == -1) has no key. */
  datatype Buf<D> = Buf(key: Option<Key>, busy: bool, valid: bool, dirty: bool, data: D)

  /** What the process holding a busy buffer is doing with it: waiting for the disk to fill it; holding
      it with nothing owed; holding it changed and owing a log_write or bwrite; waiting for the disk to
      store it. */
  datatype Phase = Loading | Held | Edited | Storing
  datatype Use = Use(pid: nat, phase: Phase)

  /** `pinned` are the blocks log_write has marked and install has not yet written home. */
  datatype State<D> = State(bufs: seq<Buf<D>>, disk: map<Key, D>, use: map<nat, Use>, pinned: set<Key>)

  datatype Event<D> =
    | Hit(p: nat, k: Key, b: nat)           // bget finds the block cached and idle
    | Wait(p: nat, k: Key, b: nat)          // bget finds the block busy and sleeps
    | Recycle(p: nat, k: Key, b: nat)       // bget reuses an idle clean buffer
    | Load(b: nat)                          // the disk read of bread finishes
    | Edit(p: nat, k: Key, b: nat, data: D) // the holder changes the data
    | LogWrite(p: nat, b: nat)
    | Bwrite(p: nat, b: nat)                // bwrite queues the buffer
    | Store(b: nat)                         // the disk write finishes
    | Brelse(p: nat, b: nat)

  predicate Cached<D>(bufs: seq<Buf<D>>, k: Key) {
    exists b :: 0 <= b < |bufs| && bufs[b].key == Some(k)
  }

  predicate Holds<D>(s: State<D>, p: nat, b: nat) { b in s.use && s.use[b].pid == p }

  ghost predicate Enabled<D>(s: State<D>, e: Event<D>) {
    match e
    case Hit(p, k, b) => b < |s.bufs| && s.bufs[b].key == Some(k) && !s.bufs[b].busy
    case Wait(p, k, b) => b < |s.bufs| && s.bufs[b].key == Some(k) && s.bufs[b].busy
    case Recycle(p, k, b) =>
      b < |s.bufs| && !Cached(s.bufs, k) && k in s.disk && !s.bufs[b].busy && !s.bufs[b].dirty
    case Load(b) => b < |s.bufs| && b in s.use && s.use[b].phase == Loading
    case Edit(p, k, b, d) =>
      b < |s.bufs| && Holds(s, p, b) && s.use[b].phase in {Held, Edited} && s.bufs[b].key == Some(k)
    case LogWrite(p, b) => b < |s.bufs| && Holds(s, p, b) && s.use[b].phase in {Held, Edited}
    case Bwrite(p, b) => b < |s.bufs| && Holds(s, p, b) && s.use[b].phase in {Held, Edited}
    case Store(b) => b < |s.bufs| && b in s.use && s.use[b].phase == Storing
    case Brelse(p, b) => b < |s.bufs| && Holds(s, p, b) && s.use[b].phase == Held
  }

  /** The phase a process enters when bget hands it buffer `b`: bread loads it unless it is valid. */
  function Entry<D>(b: Buf<D>): Phase { if b.valid then Held else Loading }

  function Next<D>(s: State<D>, e: Event<D>): State<D> {
    match e
    case Hit(p, k, b) =>
      if b >= |s.bufs| then s else
      s.(bufs := s.bufs[b := s.bufs[b].(busy := true)], use := s.use[b := Use(p, Entry(s.bufs[b]))])
    case Wait(p, k, b) => s
    case Recycle(p, k, b) =>
      if b >= |s.bufs| then s else
      s.(bufs := s.bufs[b := Buf(Some(k), true, false, false, s.bufs[b].data)], use := s.use[b := Use(p, Loading)])
    case Load(b) =>
      if b >= |s.bufs| || b !in s.use || s.bufs[b].key.None? || s.bufs[b].key.value !in s.disk then s else
      s.(bufs := s.bufs[b := s.bufs[b].(valid := true, data := s.disk[s.bufs[b].key.value])],
         use := s.use[b := s.use[b].(phase := Held)])
    case Edit(p, k, b, d) =>
      if b >= |s.bufs| then s else
      s.(bufs := s.bufs[b := s.bufs[b].(data := d)], use := s.use[b := Use(p, Edited)])
    case LogWrite(p, b) =>
      if b >= |s.bufs| || s.bufs[b].key.None? then s else
      s.(bufs := s.bufs[b := s.bufs[b].(dirty := true)], use := s.use[b := Use(p, Held)],
         pinned := s.pinned + {s.bufs[b].key.value})
    case Bwrite(p, b) =>
      if b >= |s.bufs| then s else
      s.(bufs := s.bufs[b := s.bufs[b].(dirty := true)], use := s.use[b := Use(p, Storing)])
    case Store(b) =>
      if b >= |s.bufs| || b !in s.use || s.bufs[b].key.None? then s else
      s.(bufs := s.bufs[b := s.bufs[b].(valid := true, dirty := false)],
         disk := s.disk[s.bufs[b].key.value := s.bufs[b].data],
         use := s.use[b := s.use[b].(phase := Held)],
         pinned := s.pinned - {s.bufs[b].key.value})
    case Brelse(p, b) =>
      if b >= |s.bufs| then s else
      s.(bufs := s.bufs[b := s.bufs[b].(busy := false)], use := s.use - {b})
  }

  ghost predicate Feasible<D>(s: State<D>, es: seq<Event<D>>)
    decreases |es|, 0
  {
    es == [] || (Feasible(s, es[..|es| - 1]) && Enabled(After(s, es[..|es| - 1]), es[|es| - 1]))
  }

  ghost function After<D>(s: State<D>, es: seq<Event<D>>): State<D>
    decreases |es|, 1
  {
    if es == [] then s else Next(After(s, es[..|es| - 1]), es[|es| - 1])
  }

  /** The state binit leaves: every buffer idle and of no device. */
  ghost predicate Boot<D>(s: State<D>) {
    s.use == map[] && s.pinned == {} &&
    forall b :: 0 <= b < |s.bufs| ==> Blank(s.bufs[b])
  }

  predicate Blank<D>(b: Buf<D>) { b.key.None? && !b.busy && !b.valid && !b.dirty }

  // ---------------------------------------------------------------------------------------------
  // The invariant

  ghost predicate Unique<D>(bufs: seq<Buf<D>>) {
    forall a, b :: 0 <= a < b < |bufs| && bufs[a].key.Some? ==> bufs[a].key != bufs[b].key
  }

  /** Buffer `b` agrees with the disk, with its holder's phase and with the pinned set. */
  ghost predicate BufOk<D>(s: State<D>, b: nat)
    requires b < |s.bufs|
  {
    var f := s.bufs[b];
    && (f.busy <==> b in s.use)
    && (f.key.None? ==> !f.busy && !f.valid && !f.dirty)
    && (f.key.Some? ==> f.key.value in s.disk)
    && (f.dirty ==> f.valid)
    && (f.valid && !f.dirty && !(f.busy && s.use[b].phase == Edited) ==> f.data == s.disk[f.key.value])
    && (f.key.Some? && f.key.value in s.pinned ==> f.dirty)
    && (f.dirty && !(f.busy && s.use[b].phase == Storing) ==> f.key.value in s.pinned)
    && (f.busy ==> (s.use[b].phase == Loading <==> !f.valid))
    && (f.busy && s.use[b].phase == Storing ==> f.dirty)
  }

  ghost predicate Inv<D>(s: State<D>) {
    && Unique(s.bufs)
    && (forall b :: 0 <= b < |s.bufs| ==> BufOk(s, b))
    && (forall b :: b in s.use ==> b < |s.bufs|)
    && (forall k :: k in s.pinned ==> Cached(s.bufs, k))
  }

  lemma StepKeeps<D>(s: State<D>, e: Event<D>)
    requires Inv(s) && Enabled(s, e)
    ensures Inv(Next(s, e)) && Next(s, e).disk.Keys == s.disk.Keys && |Next(s, e).bufs| == |s.bufs|
  {
    var t := Next(s, e);
    if !e.Wait? {
      assert BufOk(s, e.b);
      assert Unique(t.bufs);
      forall b | 0 <= b < |t.bufs| ensures BufOk(t, b) {
        assert BufOk(s, b);
      }
      forall k | k in t.pinned ensures Cached(t.bufs, k) {
        StillCached(s, e, k);
      }
    }
  }

  lemma StillCached<D>(s: State<D>, e: Event<D>, k: Key)
    requires Inv(s) && Enabled(s, e) && k in Next(s, e).pinned
    ensures Cached(Next(s, e).bufs, k)
  {
    var t := Next(s, e);
    if k in s.pinned {
      var b :| 0 <= b < |s.bufs| && s.bufs[b].key == Some(k);
      assert BufOk(s, b);
      assert t.bufs[b].key == Some(k);
    } else {
      assert t.bufs[e.b].key == Some(k);
    }
  }

  lemma {:induction false} RunInv<D>(s: State<D>, es: seq<Event<D>>)
    requires Inv(s) && Feasible(s, es)
    ensures Inv(After(s, es)) && After(s, es).disk.Keys == s.disk.Keys
    decreases |es|
  {
    if es != [] {
      RunInv(s, es[..|es| - 1]);
      StepKeeps(After(s, es[..|es| - 1]), es[|es| - 1]);
    }
  }

  lemma BootInv<D>(s: State<D>)
    requires Boot(s)
    ensures Inv(s)
  {
    forall b | 0 <= b < |s.bufs| ensures BufOk(s, b) {
      assert Blank(s.bufs[b]);
    }
  }

  // ---------------------------------------------------------------------------------------------
  // Transparency

  /** The disk as the cache's users see it: the cached copy of a block if there is one, else the disk. */
  ghost function Logical<D>(s: State<D>, k: Key): D
    requires k in s.disk
  {
    if HasCopy(s.bufs, k) then s.bufs[CopyOf(s.bufs, k)].data else s.disk[k]
  }

  ghost predicate HasCopy<D>(bufs: seq<Buf<D>>, k: Key) { exists b: nat :: IsCopy(bufs, k, b) }

  predicate IsCopy<D>(bufs: seq<Buf<D>>, k: Key, b: nat) { b < |bufs| && bufs[b].key == Some(k) && bufs[b].valid }

  ghost function CopyOf<D>(bufs: seq<Buf<D>>, k: Key): (b: nat)
    requires HasCopy(bufs, k)
    ensures IsCopy(bufs, k, b)
  {
    var b: nat :| IsCopy(bufs, k, b);
    b
  }

  /** The reference memory: a plain map that only edits change. */
  ghost function Edits<D>(disk: map<Key, D>, es: seq<Event<D>>): (m: map<Key, D>)
  {
    if es == [] then disk
    else
      var m, e := Edits(disk, es[..|es| - 1]), es[|es| - 1];
      if e.Edit? then m[e.k := e.data] else m
  }

  lemma LogicalOfCopy<D>(s: State<D>, k: Key, b: nat)
    requires Unique(s.bufs) && k in s.disk && IsCopy(s.bufs, k, b)
    ensures Logical(s, k) == s.bufs[b].data
  {
  }

  /** No step but an edit changes the logical disk: not getting, waiting, recycling, loading, logging,
      storing or releasing. */
  lemma StepIsTransparent<D>(s: State<D>, e: Event<D>, k: Key)
    requires Inv(s) && Enabled(s, e) && k in s.disk
    ensures k in Next(s, e).disk
    ensures Logical(Next(s, e), k) == if e.Edit? && e.k == k then e.data else Logical(s, k)
  {
    StepKeeps(s, e);
    var t := Next(s, e);
    if !e.Wait? {
      assert BufOk(s, e.b) && BufOk(t, e.b);
      if HasCopy(s.bufs, k) {
        var b := CopyOf(s.bufs, k);
        assert BufOk(s, b) && BufOk(t, b);
        if IsCopy(t.bufs, k, b) {
          LogicalOfCopy(t, k, b);
        } else {
          NoCopy(s, e, k, b);
        }
      } else {
        NewCopy(s, e, k);
      }
    }
  }

  /** A block loses its copy only when an idle clean buffer is recycled, so the disk has the same data. */
  lemma NoCopy<D>(s: State<D>, e: Event<D>, k: Key, b: nat)
    requires Inv(s) && Inv(Next(s, e)) && Enabled(s, e) && k in s.disk && k in Next(s, e).disk
    requires IsCopy(s.bufs, k, b) && !IsCopy(Next(s, e).bufs, k, b)
    ensures !e.Edit? && Logical(Next(s, e), k) == Logical(s, k)
  {
    assert e.Recycle? && e.b == b && BufOk(s, b);
    LogicalOfCopy(s, k, b);
    assert !HasCopy(Next(s, e).bufs, k);
  }

  /** A block gains a copy only by a load, so the copy is the disk's. */
  lemma NewCopy<D>(s: State<D>, e: Event<D>, k: Key)
    requires Inv(s) && Inv(Next(s, e)) && Enabled(s, e) && k in s.disk && k in Next(s, e).disk && !HasCopy(s.bufs, k)
    ensures !(e.Edit? && e.k == k) && Logical(Next(s, e), k) == Logical(s, k)
  {
    var t := Next(s, e);
    if !e.Wait? {
      assert BufOk(s, e.b);
      assert !IsCopy(s.bufs, k, e.b);
      if HasCopy(t.bufs, k) {
        var b := CopyOf(t.bufs, k);
        assert !IsCopy(s.bufs, k, b);
        assert e.Load? && b == e.b;
      } else {
        assert t.disk[k] == s.disk[k];
      }
    }
  }

  /** Over every run, the logical disk is the reference memory. */
  lemma {:induction false} CacheIsTransparent<D>(s: State<D>, es: seq<Event<D>>, k: Key)
    requires Boot(s) && Feasible(s, es) && k in s.disk
    ensures k in After(s, es).disk && k in Edits(s.disk, es)
    ensures Logical(After(s, es), k) == Edits(s.disk, es)[k]
    decreases |es|
  {
    BootInv(s);
    if es == [] {
      assert !HasCopy(s.bufs, k);
    } else {
      var es0 := es[..|es| - 1];
      CacheIsTransparent(s, es0, k);
      RunInv(s, es0);
      StepIsTransparent(After(s, es0), es[|es| - 1], k);
    }
  }

  /** What a holder reads from its buffer is what was last put into that block by anyone. */
  lemma HolderReadsLastEdit<D>(s: State<D>, es: seq<Event<D>>, b: nat)
    requires Boot(s) && Feasible(s, es)
    requires b in After(s, es).use && After(s, es).use[b].phase != Loading
    ensures b < |After(s, es).bufs| && After(s, es).bufs[b].key.Some?
    ensures var k := After(s, es).bufs[b].key.value;
            k in Edits(s.disk, es) && After(s, es).bufs[b].data == Edits(s.disk, es)[k]
  {
    BootInv(s);
    RunInv(s, es);
    var t := After(s, es);
    assert BufOk(t, b);
    var k := t.bufs[b].key.value;
    CacheIsTransparent(s, es, k);
    assert IsCopy(t.bufs, k, b);
    LogicalOfCopy(t, k, b);
  }

  /** A block has at most one buffer and so at most one holder. */
  lemma OneBufferOneHolder<D>(s: State<D>, es: seq<Event<D>>, a: nat, b: nat)
    requires Boot(s) && Feasible(s, es)
    requires a < |After(s, es).bufs| && b < |After(s, es).bufs|
    requires After(s, es).bufs[a].key.Some? && After(s, es).bufs[a].key == After(s, es).bufs[b].key
    ensures a == b
    ensures After(s, es).bufs[a].busy <==> a in After(s, es).use
  {
    BootInv(s);
    RunInv(s, es);
    assert BufOk(After(s, es), a);
  }

  // ---------------------------------------------------------------------------------------------
  // Pinning

  /** `es` writes block `k` home. */
  ghost predicate Installs<D>(s: State<D>, es: seq<Event<D>>, k: Key)
    decreases |es|
  {
    es != [] &&
    var t := After(s, es[..|es| - 1]);
    (Installs(s, es[..|es| - 1], k) ||
     (es[|es| - 1].Store? && es[|es| - 1].b < |t.bufs| && t.bufs[es[|es| - 1].b].key == Some(k)))
  }

  /** From any reachable state, a logged block stays in the same buffer, dirty, and its home on disk is
      untouched, until it is installed. */
  lemma {:induction false} LoggedStaysPut<D>(s: State<D>, es: seq<Event<D>>, k: Key, b: nat)
    requires Inv(s) && Feasible(s, es) && k in s.pinned && k in s.disk
    requires b < |s.bufs| && s.bufs[b].key == Some(k) && !Installs(s, es, k)
    ensures var t := After(s, es);
            && k in t.pinned && k in t.disk && t.disk[k] == s.disk[k]
            && b < |t.bufs| && t.bufs[b].key == Some(k) && t.bufs[b].valid && t.bufs[b].dirty
    decreases |es|
  {
    assert BufOk(s, b);
    if es != [] {
      var es0, e := es[..|es| - 1], es[|es| - 1];
      LoggedStaysPut(s, es0, k, b);
      RunInv(s, es0);
      PinnedStep(After(s, es0), e, k, b);
    }
  }

  lemma PinnedStep<D>(s: State<D>, e: Event<D>, k: Key, b: nat)
    requires Inv(s) && Enabled(s, e) && k in s.pinned && k in s.disk && b < |s.bufs| && s.bufs[b].key == Some(k)
    requires !(e.Store? && e.b < |s.bufs| && s.bufs[e.b].key == Some(k))
    ensures var t := Next(s, e);
            && k in t.pinned && k in t.disk && t.disk[k] == s.disk[k]
            && b < |t.bufs| && t.bufs[b].key == Some(k) && t.bufs[b].valid && t.bufs[b].dirty
  {
    assert BufOk(s, b);
    StepKeeps(s, e);
    assert BufOk(Next(s, e), b);
  }

  // ---------------------------------------------------------------------------------------------
  // Running out of buffers

  /** bget cannot take this buffer for another block. */
  predicate Taken<D>(f: Buf<D>) { f.busy || f.dirty }

  /** bget of a block that is not cached panics: "no buffers". */
  ghost predicate NoVictim<D>(s: State<D>) { forall b :: 0 <= b < |s.bufs| ==> Taken(s.bufs[b]) }

  /** The blocks somebody holds a buffer of. */
  ghost function HeldBlocks<D>(s: State<D>): set<Key> {
    set b | b in s.use && b < |s.bufs| && s.bufs[b].key.Some? :: s.bufs[b].key.value
  }

  /** The blocks of the taken buffers among the first `n`. */
  ghost function TakenBlocks<D>(s: State<D>, n: nat): set<Key>
    requires n <= |s.bufs|
  {
    set b | 0 <= b < n && Taken(s.bufs[b]) && s.bufs[b].key.Some? :: s.bufs[b].key.value
  }

  lemma TakenAreHeldOrPinned<D>(s: State<D>)
    requires Inv(s)
    ensures TakenBlocks(s, |s.bufs|) == HeldBlocks(s) + s.pinned
  {
    var all := TakenBlocks(s, |s.bufs|);
    forall k ensures k in all <==> k in HeldBlocks(s) + s.pinned {
      if k in all {
        var b :| 0 <= b < |s.bufs| && Taken(s.bufs[b]) && s.bufs[b].key == Some(k);
        assert BufOk(s, b);
      }
      if k in HeldBlocks(s) {
        var b :| b in s.use && b < |s.bufs| && s.bufs[b].key == Some(k);
        assert BufOk(s, b);
      }
      if k in s.pinned {
        assert Cached(s.bufs, k);
        var b :| 0 <= b < |s.bufs| && s.bufs[b].key == Some(k);
        assert BufOk(s, b);
      }
    }
  }

  lemma {:induction false} CountTaken<D>(s: State<D>, n: nat)
    requires Inv(s) && n <= |s.bufs|
    ensures |TakenBlocks(s, n)| <= n
    ensures |TakenBlocks(s, n)| == n <==> forall b :: 0 <= b < n ==> Taken(s.bufs[b])
  {
    if n > 0 {
      CountTaken(s, n - 1);
      var f := s.bufs[n - 1];
      assert BufOk(s, n - 1);
      if Taken(f) {
        assert TakenBlocks(s, n) == TakenBlocks(s, n - 1) + {f.key.value};
        assert f.key.value !in TakenBlocks(s, n - 1);
      } else {
        assert TakenBlocks(s, n) == TakenBlocks(s, n - 1);
      }
    }
  }

  /** The exact condition: bget has no buffer for a new block if and only if the blocks held by somebody or
      pinned by the log are as many as there are buffers. */
  lemma NoBuffersIff<D>(s: State<D>, es: seq<Event<D>>)
    requires Boot(s) && Feasible(s, es)
    ensures var t := After(s, es);
            |HeldBlocks(t) + t.pinned| <= |t.bufs| && (NoVictim(t) <==> |HeldBlocks(t) + t.pinned| == |t.bufs|)
  {
    BootInv(s);
    RunInv(s, es);
    var t := After(s, es);
    CountTaken(t, |t.bufs|);
    TakenAreHeldOrPinned(t);
  }

  lemma {:induction false} HeldCount(use: map<nat, Use>, f: nat -> Key)
    ensures |set b | b in use :: f(b)| <= |use|
    decreases |use|
  {
    if use == map[] {
      assert (set b | b in use :: f(b)) == {};
    } else {
      var x :| x in use;
      HeldCount(use - {x}, f);
      assert (set b | b in use :: f(b)) == (set b | b in use - {x} :: f(b)) + {f(x)};
      assert |use - {x}| == |use| - 1 by { assert (use - {x})[x := use[x]] == use; }
    }
  }

  /** In particular there is one while the held buffers and the pinned blocks together are fewer. */
  lemma RoomForOneMore<D>(s: State<D>, es: seq<Event<D>>)
    requires Boot(s) && Feasible(s, es) && |After(s, es).use| + |After(s, es).pinned| < |After(s, es).bufs|
    ensures exists b :: 0 <= b < |After(s, es).bufs| && !Taken(After(s, es).bufs[b])
  {
    NoBuffersIff(s, es);
    var t := After(s, es);
    var f := (b: nat) => if b < |t.bufs| && t.bufs[b].key.Some? then t.bufs[b].key.value else Key(0, 0);
    HeldCount(t.use, f);
    var keys := set b | b in t.use :: f(b);
    assert HeldBlocks(t) <= keys;
    Subset(HeldBlocks(t), keys);
    Union(HeldBlocks(t), t.pinned);
  }

  lemma Subset<T>(a: set<T>, b: set<T>)
    requires a <= b
    ensures |a| <= |b|
  {
    assert b == a + (b - a);
  }

  lemma Union<T>(a: set<T>, b: set<T>)
    ensures |a + b| <= |a| + |b|
  {
    assert a + b == a + (b - a);
    assert |b - a| <= |b| by { Subset(b - a, b); }
  }

  // With all buffers but one pinned, one holder is enough.

  function Blocknr(j: nat): Key { Key(0, j) }

  /** Process 0 logs block `j` in buffer `j`, for each j below `m`. */
  function PinRun<D>(m: nat): seq<Event<D>> {
    if m == 0 then []
    else PinRun(m - 1) + [Recycle(0, Blocknr(m - 1), m - 1)] + [Load(m - 1)] + [LogWrite(0, m - 1)] + [Brelse(0, m - 1)]
  }

  ghost predicate PinnedTo<D>(s: State<D>, t: State<D>, m: nat) {
    && |t.bufs| == |s.bufs| && t.use == map[] && t.disk == s.disk
    && (forall b :: 0 <= b < m && b < |t.bufs| ==>
          t.bufs[b].key == Some(Blocknr(b)) && t.bufs[b].dirty && !t.bufs[b].busy)
    && (forall b :: m <= b < |t.bufs| ==> Blank(t.bufs[b]))
  }

  lemma RunSnoc<D>(s: State<D>, es: seq<Event<D>>, e: Event<D>)
    requires Feasible(s, es) && Enabled(After(s, es), e)
    ensures Feasible(s, es + [e]) && After(s, es + [e]) == Next(After(s, es), e)
  {
    assert (es + [e])[..|es + [e]| - 1] == es;
  }

  lemma {:induction false} PinRuns<D>(s: State<D>, m: nat)
    requires Boot(s) && m <= |s.bufs| && forall j: nat :: j < m ==> Blocknr(j) in s.disk
    ensures Feasible(s, PinRun<D>(m)) && PinnedTo(s, After(s, PinRun<D>(m)), m)
  {
    hide Enabled, Next, Feasible, After;
    if m == 0 {
      Started(s);
    } else {
      var es: seq<Event<D>> := PinRun<D>(m - 1);
      PinRuns(s, m - 1);
      var t := After(s, es);
      PinOne(s, t, m - 1);
      var e1, e2, e3, e4 := Recycle(0, Blocknr(m - 1), m - 1), Load(m - 1), LogWrite(0, m - 1), Brelse(0, m - 1);
      RunSnoc(s, es, e1);
      RunSnoc(s, es + [e1], e2);
      RunSnoc(s, es + [e1] + [e2], e3);
      RunSnoc(s, es + [e1] + [e2] + [e3], e4);
    }
  }

  lemma Started<D>(s: State<D>)
    ensures Feasible(s, []) && After(s, []) == s
  {
  }

  lemma PinOne<D>(s: State<D>, t: State<D>, m: nat)
    requires PinnedTo(s, t, m) && m < |s.bufs| && Blocknr(m) in s.disk
    ensures Enabled(t, Recycle(0, Blocknr(m), m))
    ensures var t1 := Next(t, Recycle(0, Blocknr(m), m));
            && Enabled(t1, Load(m))
            && var t2 := Next(t1, Load(m));
            && Enabled(t2, LogWrite(0, m))
            && var t3 := Next(t2, LogWrite(0, m));
            Enabled(t3, Brelse(0, m)) && PinnedTo(s, Next(t3, Brelse(0, m)), m + 1)
  {
    assert Blank(t.bufs[m]);
    forall b | 0 <= b < |t.bufs| ensures t.bufs[b].key != Some(Blocknr(m)) {
      assert b >= m ==> Blank(t.bufs[b]);
    }
    var t4 := Next(Next(Next(Next(t, Recycle(0, Blocknr(m), m)), Load(m)), LogWrite(0, m)), Brelse(0, m));
    assert t4.use == map[];
  }

  /** With any number of buffers, let the log pin all but one and a process read one more block: then bget
      panics for every block that is not cached. */
  lemma OneHolderIsEnough<D>(s: State<D>, m: nat)
    requires Boot(s) && |s.bufs| == m + 1 && forall j: nat :: j <= m ==> Blocknr(j) in s.disk
    ensures var es := PinRun<D>(m) + [Recycle(1, Blocknr(m), m)];
            Feasible(s, es) && NoVictim(After(s, es)) && |After(s, es).use| == 1
  {
    hide Feasible, After, PinRun;
    PinRuns(s, m);
    var t := After(s, PinRun<D>(m));
    var e: Event<D> := Recycle(1, Blocknr(m), m);
    PinOne(s, t, m);
    RunSnoc(s, PinRun<D>(m), e);
    assert Next(t, e).use == map[m := Use(1, Loading)];
  }

  /** Over every run whoever has a buffer can go on with it: a read that is under way ends with the buffer valid, a
      write ends with the data on disk, a held buffer can be released, and a changed one logged or written. */
  lemma HolderGoesOn<D>(s: State<D>, es: seq<Event<D>>, b: nat)
    requires Boot(s) && Feasible(s, es) && b in After(s, es).use
    ensures var z := After(s, es);
            && b < |z.bufs| && z.bufs[b].key.Some?
            && var p, k := z.use[b].pid, z.bufs[b].key.value;
            match z.use[b].phase
            case Loading =>
              && Enabled(z, Load(b)) && k in z.disk
              && Next(z, Load(b)).use == z.use[b := Use(p, Held)]
              && Next(z, Load(b)).bufs == z.bufs[b := Buf(Some(k), true, true, z.bufs[b].dirty, z.disk[k])]
            case Held => Enabled(z, Brelse(p, b)) && Next(z, Brelse(p, b)).use == z.use - {b}
            case Edited => Enabled(z, LogWrite(p, b)) && Enabled(z, Bwrite(p, b))
            case Storing =>
              && Enabled(z, Store(b)) && Next(z, Store(b)).use == z.use[b := Use(p, Held)]
              && Next(z, Store(b)).disk == z.disk[k := z.bufs[b].data]
  {
    RunInv(s, es);
    assert BufOk(After(s, es), b);
  }
}
