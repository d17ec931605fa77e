/**
 * The pipe as a protocol between any number of reading and writing processes.  Each step is what one
 * process does under the pipe's lock between two points where it gives the lock up.
 */
module PipeProtocol {
  import opened Common
  import opened PipeRing

  /** A process inside pipewrite with bytes still to write, or inside piperead asking for n bytes. */
  datatype Writer = Writer(rest: seq<nat>, asleep: bool)
  datatype Reader = Reader(n: nat, asleep: bool)

  datatype State = State(ring: Ring, sent: seq<nat>, received: seq<nat>, readopen: bool, writeopen: bool,
                         writers: map<nat, Writer>, readers: map<nat, Reader>, killed: set<nat>)

  datatype Event =
    | Write(p: nat, bs: seq<nat>)   // enters pipewrite
    | Read(p: nat, n: nat)          // enters piperead
    | RunWriter(p: nat)             // to its return or its sleep
    | RunReader(p: nat)
    | CloseRead                     // the last read descriptor goes
    | CloseWrite
    | Kill(p: nat)

  predicate Enabled(s: State, e: Event) {
    match e
    case Write(p, bs) => s.writeopen && p !in s.writers && p !in s.readers
    case Read(p, n) => s.readopen && p !in s.writers && p !in s.readers
    case RunWriter(p) => p in s.writers && !s.writers[p].asleep && |s.ring.data| == PIPESIZE
    case RunReader(p) => p in s.readers && !s.readers[p].asleep && |s.ring.data| == PIPESIZE
    case CloseRead => s.readopen && s.readers == map[]      // a process inside has it open
    case CloseWrite => s.writeopen && s.writers == map[]
    case Kill(p) => true
  }

  function WakeReaders(m: map<nat, Reader>): map<nat, Reader> { map p | p in m :: m[p].(asleep := false) }
  function WakeWriters(m: map<nat, Writer>): map<nat, Writer> { map p | p in m :: m[p].(asleep := false) }

  /** The writer gives up: the pipe is full, and nobody will read or it has been killed. */
  predicate GivesUp(s: State, p: nat, rest: seq<nat>) { rest != [] && (!s.readopen || p in s.killed) }

  function Next(s: State, e: Event): State
    requires Enabled(s, e)
  {
    match e
    case Write(p, bs) => s.(writers := s.writers[p := Writer(bs, false)])
    case Read(p, n) => s.(readers := s.readers[p := Reader(n, false)])
    case RunWriter(p) =>
      var bs := s.writers[p].rest;
      var (r, rest) := Fill(s.ring, bs);
      var s' := s.(ring := r, sent := s.sent + bs[..Count(bs, rest)]);
      if rest == [] then s'.(writers := s.writers - {p}, readers := WakeReaders(s.readers))
      else if GivesUp(s, p, rest) then s'.(writers := s.writers - {p})
      else s'.(writers := s.writers[p := Writer(rest, true)], readers := WakeReaders(s.readers))
    case RunReader(p) =>
      if IsEmpty(s.ring) && s.writeopen then
        if p in s.killed then s.(readers := s.readers - {p})
        else s.(readers := s.readers[p := s.readers[p].(asleep := true)])
      else
        var (r, out) := Drain(s.ring, s.readers[p].n);
        s.(ring := r, received := s.received + out, readers := s.readers - {p}, writers := WakeWriters(s.writers))
    case CloseRead => s.(readopen := false, writers := WakeWriters(s.writers))
    case CloseWrite => s.(writeopen := false, readers := WakeReaders(s.readers))
    case Kill(p) =>
      s.(killed := s.killed + {p},
         writers := if p in s.writers then s.writers[p := s.writers[p].(asleep := false)] else s.writers,
         readers := if p in s.readers then s.readers[p := s.readers[p].(asleep := false)] else s.readers)
  }

  /** How many bytes went in, given what is left. */
  function Count(bs: seq<nat>, rest: seq<nat>): (k: nat)
    ensures k <= |bs|
  {
    if |rest| <= |bs| then |bs| - |rest| else 0
  }

  ghost predicate Feasible(s: State, es: seq<Event>)
    decreases |es|, 0
  {
    es == [] || (Feasible(s, es[..|es| - 1]) && Enabled(After(s, es[..|es| - 1]), es[|es| - 1]))
  }

  ghost function After(s: State, es: seq<Event>): State
    requires Feasible(s, es)
    decreases |es|, 1
  {
    if es == [] then s else Next(After(s, es[..|es| - 1]), es[|es| - 1])
  }

  /** pipealloc's state. */
  ghost predicate Boot(s: State) {
    && |s.ring.data| == PIPESIZE && s.ring.nread == 0 && s.ring.nwrite == 0 && s.sent == [] && s.received == []
    && s.readopen && s.writeopen && s.writers == map[] && s.readers == map[] && s.killed == {}
  }

  // ---------------------------------------------------------------------------------------------
  // Delivery

  ghost predicate Inv(s: State) {
    && Carries(s.ring, s.sent, s.received)
    && (s.readers != map[] ==> s.readopen) && (s.writers != map[] ==> s.writeopen)
  }

  lemma StepKeeps(s: State, e: Event)
    requires Inv(s) && Enabled(s, e)
    ensures Inv(Next(s, e)) && s.sent <= Next(s, e).sent && s.received <= Next(s, e).received
  {
    hide Carries, Fill, Drain;
    if e.RunWriter? {
      FillCarries(s.ring, s.sent, s.received, s.writers[e.p].rest);
    } else if e.RunReader? {
      DrainCarries(s.ring, s.sent, s.received, s.readers[e.p].n);
    }
  }

  lemma {:induction false} RunInv(s: State, es: seq<Event>)
    requires Boot(s) && Feasible(s, es)
    ensures Inv(After(s, es))
    decreases |es|
  {
    if es != [] {
      RunInv(s, es[..|es| - 1]);
      StepKeeps(After(s, es[..|es| - 1]), es[|es| - 1]);
    }
  }

  /** Over every run, of any length and with any kills, the bytes that came out are a prefix of the bytes
      that went in, and the ring holds the rest, at most PIPESIZE. */
  lemma DeliveredInOrder(s: State, es: seq<Event>)
    requires Boot(s) && Feasible(s, es)
    ensures var z := After(s, es);
            z.received <= z.sent && |z.sent| - |z.received| <= PIPESIZE
  {
    RunInv(s, es);
  }

  /** A read that does not sleep returns the next bytes, as many as it asked for if they are there; it
      returns none exactly when it asked for none or the writers are gone and nothing is left. */
  lemma ReadReturnsNext(s: State, es: seq<Event>, p: nat)
    requires Boot(s) && Feasible(s, es) && Enabled(After(s, es), RunReader(p))
    ensures var z := After(s, es);
            var z' := Next(z, RunReader(p));
            var n := z.readers[p].n;
            !(IsEmpty(z.ring) && z.writeopen) ==>
              && |z.received| <= |z.sent|
              && z'.received == z.sent[..|z.received| + Min(n, |z.sent| - |z.received|)]
              && (z'.received == z.received <==> n == 0 || (!z.writeopen && z.received == z.sent))
  {
    RunInv(s, es);
    var z := After(s, es);
    DrainCarries(z.ring, z.sent, z.received, z.readers[p].n);
    TestsAreExact(z.ring, z.sent, z.received);
    if !(IsEmpty(z.ring) && z.writeopen) {
      var out := Drain(z.ring, z.readers[p].n).1;
      var all := z.received + out;
      assert all <= z.sent;
      assert all == z.sent[..|all|];
    }
  }

  /** A write inserts its own bytes in order, as many as fit; if some are left the pipe is full, and if it
      sleeps those are what it still has to write. */
  lemma WriteInserts(s: State, es: seq<Event>, p: nat)
    requires Boot(s) && Feasible(s, es) && Enabled(After(s, es), RunWriter(p))
    ensures var z := After(s, es);
            var z' := Next(z, RunWriter(p));
            var bs := z.writers[p].rest;
            && 0 <= |z.sent| - |z.received| <= PIPESIZE
            && var k := Min(|bs|, PIPESIZE - (|z.sent| - |z.received|));
               && z'.sent == z.sent + bs[..k] && (k < |bs| ==> IsFull(z'.ring))
               && (p in z'.writers ==> z'.writers[p] == Writer(bs[k..], true))
  {
    hide Fill, Drain;
    RunInv(s, es);
    var z := After(s, es);
    FillCarries(z.ring, z.sent, z.received, z.writers[p].rest);
  }

  // ---------------------------------------------------------------------------------------------
  // What becomes of a call

  /** The bytes of the last write that process `p` called. */
  function Asked(es: seq<Event>, p: nat): seq<nat> {
    if es == [] then []
    else
      match es[|es| - 1]
      case Write(q, bs) => if q == p then bs else Asked(es[..|es| - 1], p)
      case _ => Asked(es[..|es| - 1], p)
  }

  /** What went into the pipe in the steps of `p` since then. */
  ghost function Put(s: State, es: seq<Event>, p: nat): seq<nat>
    requires Feasible(s, es)
    decreases |es|
  {
    if es == [] then []
    else
      var es0, e := es[..|es| - 1], es[|es| - 1];
      if e.Write? && e.p == p then []
      else if e == RunWriter(p) && |After(s, es0).sent| <= |After(s, es).sent| then
        Put(s, es0, p) + After(s, es).sent[|After(s, es0).sent|..]
      else Put(s, es0, p)
  }

  /** One step, for the writer `p`: only its own steps put bytes in or make it leave.  It leaves when all its bytes
      are in, or when some are left and nobody will read or it has been killed. */
  lemma WriterLeavesIff(s: State, e: Event, p: nat)
    requires Inv(s) && Enabled(s, e) && p in s.writers
    ensures var s', bs := Next(s, e), s.writers[p].rest;
            && s.sent <= s'.sent
            && (e != RunWriter(p) ==> p in s'.writers && s'.writers[p].rest == bs)
            && (e == RunWriter(p) ==>
                  && s'.sent[|s.sent|..] <= bs
                  && (p in s'.writers <==> s'.sent[|s.sent|..] != bs && s.readopen && p !in s.killed)
                  && (p in s'.writers ==> s'.sent[|s.sent|..] + s'.writers[p].rest == bs))
  {
    hide Carries, Fill, Drain;
    StepKeeps(s, e);
    if e == RunWriter(p) {
      var bs := s.writers[p].rest;
      FillCarries(s.ring, s.sent, s.received, bs);
      var k := Count(bs, Fill(s.ring, bs).1);
      assert Next(s, e).sent[|s.sent|..] == bs[..k];
      assert bs[..k] + bs[k..] == bs;
    }
  }

  /** Over every run a writer loses nothing: until it leaves, what it has put in followed by what it still has to
      write is exactly what its write was given. */
  lemma {:induction false} WriterLosesNothing(s: State, es: seq<Event>, p: nat)
    requires Boot(s) && Feasible(s, es) && p in After(s, es).writers
    ensures Put(s, es, p) + After(s, es).writers[p].rest == Asked(es, p)
    decreases |es|
  {
    hide Next, Enabled, Inv, Fill, Drain, Carries;
    var es0, e := es[..|es| - 1], es[|es| - 1];
    var z := After(s, es0);
    RunInv(s, es0);
    if e.Write? && e.p == p {
      Enters(z, p, e.bs);
    } else {
      StaysWriter(z, e, p);
      WriterLosesNothing(s, es0, p);
      WriterLeavesIff(z, e, p);
      if e == RunWriter(p) {
        var now, rest := After(s, es).sent[|z.sent|..], After(s, es).writers[p].rest;
        assert Put(s, es, p) == Put(s, es0, p) + now;
        assert (Put(s, es0, p) + now) + rest == Put(s, es0, p) + (now + rest);
      }
    }
  }

  lemma Enters(s: State, p: nat, bs: seq<nat>)
    requires Enabled(s, Write(p, bs))
    ensures p in Next(s, Write(p, bs)).writers && Next(s, Write(p, bs)).writers[p].rest == bs
  {
  }

  lemma StaysWriter(s: State, e: Event, p: nat)
    requires Enabled(s, e) && p in Next(s, e).writers && !(e.Write? && e.p == p)
    ensures p in s.writers
  {
    hide Fill, Drain;
  }

  /** So when it leaves, all it was given has gone in, in order; or a first part of it, and then nobody will read
      or it has been killed. */
  lemma WriterLeaves(s: State, es: seq<Event>, e: Event, p: nat)
    requires Boot(s) && Feasible(s, es + [e]) && Feasible(s, es) && Enabled(After(s, es), e)
    requires p in After(s, es).writers && p !in After(s, es + [e]).writers
    ensures Put(s, es + [e], p) <= Asked(es, p)
    ensures Put(s, es + [e], p) == Asked(es, p) || !After(s, es).readopen || p in After(s, es).killed
  {
    hide Next, Enabled, Inv, Fill, Drain, Carries;
    var z := After(s, es);
    assert (es + [e])[..|es|] == es;
    RunInv(s, es);
    WriterLosesNothing(s, es, p);
    WriterLeavesIff(z, e, p);
  }

  /** One step, for the reader `p`: only its own steps make it leave.  It stays exactly while the pipe is empty, may
      still be written and it has not been killed, and then takes nothing and sleeps. */
  lemma ReaderLeavesIff(s: State, e: Event, p: nat)
    requires Enabled(s, e) && p in s.readers
    ensures var s' := Next(s, e);
            && (e != RunReader(p) ==> p in s'.readers && s'.readers[p].n == s.readers[p].n)
            && (e == RunReader(p) ==>
                  && (p in s'.readers <==> IsEmpty(s.ring) && s.writeopen && p !in s.killed)
                  && (p in s'.readers ==> s' == s.(readers := s.readers[p := Reader(s.readers[p].n, true)]))
                  && (IsEmpty(s.ring) && s.writeopen ==> s'.ring == s.ring && s'.received == s.received))
  {
    hide Fill, Drain;
  }

  /** A kill wakes its process and lets everybody else be. */
  lemma KillWakes(s: State, p: nat, q: nat)
    ensures var s' := Next(s, Kill(p));
            && (q in s'.writers <==> q in s.writers) && (q in s'.readers <==> q in s.readers)
            && (q in s.writers ==>
                  s'.writers[q] == if q == p then Writer(s.writers[q].rest, false) else s.writers[q])
            && (q in s.readers ==>
                  s'.readers[q] == if q == p then Reader(s.readers[q].n, false) else s.readers[q])
  {
  }

  /** Whoever is not asleep can go on. */
  lemma AwakeCanRun(s: State, es: seq<Event>, p: nat)
    requires Boot(s) && Feasible(s, es)
    ensures var z := After(s, es);
            && (p in z.writers && !z.writers[p].asleep ==> Enabled(z, RunWriter(p)))
            && (p in z.readers && !z.readers[p].asleep ==> Enabled(z, RunReader(p)))
            && (p !in z.writers && p !in z.readers ==>
                  && (z.writeopen ==> forall bs :: Enabled(z, Write(p, bs)))
                  && (z.readopen ==> forall n :: Enabled(z, Read(p, n))))
  {
    RunInv(s, es);
  }

  /** An end is open until it is closed, and whoever was killed stays killed. */
  lemma {:induction false} EndsAreOpen(s: State, es: seq<Event>, p: nat)
    requires Boot(s) && Feasible(s, es)
    ensures After(s, es).readopen <==> CloseRead !in es
    ensures After(s, es).writeopen <==> CloseWrite !in es
    ensures p in After(s, es).killed <==> Kill(p) in es
    decreases |es|
  {
    hide Next, Enabled;
    if es != [] {
      EndsAreOpen(s, es[..|es| - 1], p);
      EndsStep(After(s, es[..|es| - 1]), es[|es| - 1], p);
      assert es == es[..|es| - 1] + [es[|es| - 1]];
    }
  }

  lemma EndsStep(s: State, e: Event, p: nat)
    requires Enabled(s, e)
    ensures Next(s, e).readopen <==> s.readopen && e != CloseRead
    ensures Next(s, e).writeopen <==> s.writeopen && e != CloseWrite
    ensures p in Next(s, e).killed <==> p in s.killed || e == Kill(p)
  {
    hide Fill, Drain;
  }

  // ---------------------------------------------------------------------------------------------
  // Sleeping

  predicate ReaderAsleep(s: State, p: nat) { p in s.readers && s.readers[p].asleep }
  predicate WriterAsleep(s: State, p: nat) { p in s.writers && s.writers[p].asleep }

  /** A sleeping reader means an empty pipe, a sleeping writer a full one. */
  ghost predicate SleepOk(s: State) {
    && (forall p :: ReaderAsleep(s, p) ==> IsEmpty(s.ring) && s.writeopen)
    && (forall p :: WriterAsleep(s, p) ==> IsFull(s.ring) && s.readopen)
  }

  ghost predicate NoReaderAsleep(s: State) { forall p :: !ReaderAsleep(s, p) }

  /** The one step that can break it: a killed writer that gives up after filling the pipe wakes nobody. */
  predicate SilentExit(s: State, e: Event)
    requires Enabled(s, e)
  {
    e.RunWriter? && GivesUp(s, e.p, Fill(s.ring, s.writers[e.p].rest).1)
  }

  /** Each step keeps the sleeping invariant if and only if it is not a silent exit past a sleeping reader. */
  lemma SleepStepIff(s: State, e: Event)
    requires Inv(s) && SleepOk(s) && Enabled(s, e)
    ensures SleepOk(Next(s, e)) <==> !SilentExit(s, e) || NoReaderAsleep(s)
  {
    hide Carries, Fill, Drain;
    TestsAreExact(s.ring, s.sent, s.received);
    var s' := Next(s, e);
    if e.RunWriter? {
      FillCarries(s.ring, s.sent, s.received, s.writers[e.p].rest);
      TestsAreExact(s'.ring, s'.sent, s'.received);
      if SilentExit(s, e) {
        assert forall p :: ReaderAsleep(s', p) <==> ReaderAsleep(s, p);
      } else {
        assert forall p :: !ReaderAsleep(s', p);
      }
      WriterStep(s, e);
    } else if e.RunReader? {
      ReaderStep(s, e);
    } else if e.CloseRead? {
      assert forall p :: !WriterAsleep(s', p);
    } else if e.CloseWrite? {
      assert forall p :: !ReaderAsleep(s', p);
    } else {
      assert forall p :: ReaderAsleep(s', p) ==> ReaderAsleep(s, p);
      assert forall p :: WriterAsleep(s', p) ==> WriterAsleep(s, p);
    }
  }

  lemma WriterStep(s: State, e: Event)
    requires Inv(s) && SleepOk(s) && e.RunWriter? && Enabled(s, e)
    ensures forall p :: WriterAsleep(Next(s, e), p) ==> IsFull(Next(s, e).ring) && s.readopen
  {
    hide Carries, Drain;
    FillCarries(s.ring, s.sent, s.received, s.writers[e.p].rest);
    forall p | WriterAsleep(Next(s, e), p) ensures IsFull(Next(s, e).ring) && s.readopen {
      if p != e.p {
        assert WriterAsleep(s, p);
      }
    }
  }

  lemma ReaderStep(s: State, e: Event)
    requires Inv(s) && SleepOk(s) && e.RunReader? && Enabled(s, e)
    ensures SleepOk(Next(s, e))
  {
    hide Carries, Fill;
    var s' := Next(s, e);
    DrainCarries(s.ring, s.sent, s.received, s.readers[e.p].n);
    TestsAreExact(s.ring, s.sent, s.received);
    if IsEmpty(s.ring) && s.writeopen {
      assert forall p :: WriterAsleep(s', p) ==> WriterAsleep(s, p);
    } else {
      assert forall p :: !WriterAsleep(s', p);
      assert forall p :: ReaderAsleep(s', p) ==> ReaderAsleep(s, p);
    }
  }

  predicate NoKills(es: seq<Event>) { forall i :: 0 <= i < |es| ==> !es[i].Kill? }

  lemma {:induction false} RunSleepOk(s: State, es: seq<Event>)
    requires Boot(s) && Feasible(s, es) && NoKills(es)
    ensures SleepOk(After(s, es)) && After(s, es).killed == {}
    decreases |es|
  {
    if es != [] {
      var es0, e := es[..|es| - 1], es[|es| - 1];
      RunSleepOk(s, es0);
      RunInv(s, es0);
      SleepStepIff(After(s, es0), e);
      ClosedHasNoReaders(After(s, es0));
      assert !e.Kill?;
    }
  }

  lemma ClosedHasNoReaders(s: State)
    requires Inv(s)
    ensures !s.readopen ==> NoReaderAsleep(s)
  {
  }

  /** Without kills, in every reachable state a sleeping reader means an empty pipe and a sleeping writer a
      full one, so a reader and a writer never sleep at once. */
  lemma NeverBothAsleep(s: State, es: seq<Event>, r: nat, w: nat)
    requires Boot(s) && Feasible(s, es) && NoKills(es)
    ensures ReaderAsleep(After(s, es), r) ==> IsEmpty(After(s, es).ring) && After(s, es).writeopen
    ensures WriterAsleep(After(s, es), w) ==> IsFull(After(s, es).ring) && After(s, es).readopen
    ensures !(ReaderAsleep(After(s, es), r) && WriterAsleep(After(s, es), w))
  {
    RunSleepOk(s, es);
    RunInv(s, es);
    TestsAreExact(After(s, es).ring, After(s, es).sent, After(s, es).received);
  }

  /** With a kill it fails: reader 1 sleeps, writer 2 is killed before it runs, fills the pipe and leaves. */
  lemma KilledWriterLeavesReaderAsleep(s: State, bs: seq<nat>)
    requires Boot(s) && |bs| == PIPESIZE + 1
    ensures var es := [Read(1, 1), RunReader(1), Write(2, bs), Kill(2), RunWriter(2)];
            Feasible(s, es) && ReaderAsleep(After(s, es), 1) && IsFull(After(s, es).ring) && 2 !in After(s, es).writers
  {
    hide After, Feasible, Fill, Drain, Carries;
    var e1, e2, e3, e4, e5 := Read(1, 1), RunReader(1), Write(2, bs), Kill(2), RunWriter(2);
    Nil(s);
    Snoc(s, [], e1);
    var es1, s1 := [] + [e1], Next(s, e1);
    Snoc(s, es1, e2);
    var es2, s2 := es1 + [e2], Next(s1, e2);
    Snoc(s, es2, e3);
    var es3, s3 := es2 + [e3], Next(s2, e3);
    Snoc(s, es3, e4);
    var es4, s4 := es3 + [e4], Next(s3, e4);
    NothingSent(s4.ring);
    FillCarries(s4.ring, [], [], bs);
    Snoc(s, es4, e5);
    assert es4 + [e5] == [e1, e2, e3, e4, e5];
  }

  lemma Nil(s: State)
    ensures Feasible(s, []) && After(s, []) == s
  {
  }

  lemma NothingSent(r: Ring)
    requires |r.data| == PIPESIZE && r.nread == 0 && r.nwrite == 0
    ensures Carries(r, [], [])
  {
  }

  lemma Snoc(s: State, es: seq<Event>, e: Event)
    requires Feasible(s, es) && Enabled(After(s, es), e)
    ensures Feasible(s, es + [e]) && After(s, es + [e]) == Next(After(s, es), e)
  {
    assert (es + [e])[..|es|] == es;
  }
}
