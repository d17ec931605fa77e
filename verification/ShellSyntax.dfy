/**
 * The shell's concrete syntax: lines as they may be written, with redirections anywhere among the words of a command,
 * before the first one too, and after a block.  A token list parses to a command if and only if it is a line of this
 * syntax with at most nine words to a command, and the command is that line's meaning.
 */
module ShellSyntax {
  import opened ShellGrammar
  import ShellLex

  datatype Item<W> = Arg(w: W) | Rd(sym: char, file: W)
  datatype Elem<W> = Simple(items: seq<Item<W>>) | Block(line: Line<W>, redirs: seq<Item<W>>)
  datatype Pipeline<W> = One(e: Elem<W>) | Bar(e: Elem<W>, more: Pipeline<W>)

  /** A pipeline, its ampersands, and what follows a semicolon. */
  datatype Line<W> = Last(p: Pipeline<W>, amps: nat) | Semi(p: Pipeline<W>, amps: nat, more: Line<W>)

  // ---------------------------------------------------------------- what is written

  function OneToks<W>(i: Item<W>): (ts: seq<Tok<W>>)
    ensures ts != []
  {
    match i case Arg(w) => [Word(w)] case Rd(c, f) => [Sym(c), Word(f)]
  }

  function ItemToks<W>(items: seq<Item<W>>): seq<Tok<W>> {
    if items == [] then [] else OneToks(items[0]) + ItemToks(items[1..])
  }

  function Amps<W>(n: nat): seq<Tok<W>> { if n == 0 then [] else [Sym('&')] + Amps(n - 1) }

  function ElemToks<W>(e: Elem<W>): seq<Tok<W>> {
    match e
    case Simple(items) => ItemToks(items)
    case Block(line, redirs) => [Sym('(')] + (LineToks(line) + ([Sym(')')] + ItemToks(redirs)))
  }

  function PipeToks<W>(p: Pipeline<W>): seq<Tok<W>> {
    match p
    case One(e) => ElemToks(e)
    case Bar(e, more) => ElemToks(e) + ([Sym('|')] + PipeToks(more))
  }

  function LineToks<W>(l: Line<W>): seq<Tok<W>> {
    match l
    case Last(p, amps) => PipeToks(p) + Amps(amps)
    case Semi(p, amps, more) => PipeToks(p) + (Amps(amps) + ([Sym(';')] + LineToks(more)))
  }

  /** Redirection symbols are those there are, and only redirections follow a block. */
  predicate ItemsOk<W>(items: seq<Item<W>>) { forall i :: 0 <= i < |items| && items[i].Rd? ==> items[i].sym in "<>+" }

  predicate AllRd<W>(items: seq<Item<W>>) { forall i :: 0 <= i < |items| ==> items[i].Rd? }

  predicate ElemOk<W>(e: Elem<W>) {
    match e
    case Simple(items) => ItemsOk(items)
    case Block(line, redirs) => LineOk(line) && ItemsOk(redirs) && AllRd(redirs)
  }

  predicate PipeOk<W>(p: Pipeline<W>) { ElemOk(p.e) && (p.Bar? ==> PipeOk(p.more)) }

  predicate LineOk<W>(l: Line<W>) { PipeOk(l.p) && (l.Semi? ==> LineOk(l.more)) }

  // ---------------------------------------------------------------- what it means

  function OneArg<W>(i: Item<W>): seq<W> { if i.Arg? then [i.w] else [] }

  function Args<W>(items: seq<Item<W>>): seq<W> { if items == [] then [] else OneArg(items[0]) + Args(items[1..]) }

  function OneRedir<W>(i: Item<W>): seq<Redir<W>> { if i.Rd? then [Redir(ModeOf(i.sym), i.file)] else [] }

  function Redirs<W>(items: seq<Item<W>>): seq<Redir<W>> {
    if items == [] then [] else OneRedir(items[0]) + Redirs(items[1..])
  }

  function Backed<W>(c: Cmd<W>, n: nat): Cmd<W>
    decreases n
  {
    if n == 0 then c else Backed(Back(c), n - 1)
  }

  function ElemCmd<W>(e: Elem<W>): Cmd<W> {
    match e
    case Simple(items) => Wrap(Exec(Args(items)), Redirs(items))
    case Block(line, redirs) => Wrap(LineCmd(line), Redirs(redirs))
  }

  function PipeCmd<W>(p: Pipeline<W>): Cmd<W> {
    match p
    case One(e) => ElemCmd(e)
    case Bar(e, more) => Pipe(ElemCmd(e), PipeCmd(more))
  }

  function LineCmd<W>(l: Line<W>): Cmd<W> {
    match l
    case Last(p, amps) => Backed(PipeCmd(p), amps)
    case Semi(p, amps, more) => List(Backed(PipeCmd(p), amps), LineCmd(more))
  }

  /** No command has more than nine words. */
  predicate ElemFits<W>(e: Elem<W>) {
    match e case Simple(items) => |Args(items)| < MAXARGS case Block(line, _) => LineFits(line)
  }

  predicate PipeFits<W>(p: Pipeline<W>) { ElemFits(p.e) && (p.Bar? ==> PipeFits(p.more)) }

  predicate LineFits<W>(l: Line<W>) { PipeFits(l.p) && (l.Semi? ==> LineFits(l.more)) }

  // ---------------------------------------------------------------- reading what is written

  /** The number of redirections in front. */
  function Lead<W>(items: seq<Item<W>>): (n: nat)
    ensures n <= |items| && AllRd(items[..n]) && (n < |items| ==> items[n].Arg?)
  {
    if items == [] || items[0].Arg? then 0
    else
      var n := Lead(items[1..]);
      assert items[..n + 1] == [items[0]] + items[1..][..n];
      n + 1
  }

  lemma ItemsCons<W>(i: Item<W>, items: seq<Item<W>>)
    ensures ItemToks([i] + items) == OneToks(i) + ItemToks(items)
    ensures Args([i] + items) == OneArg(i) + Args(items) && Redirs([i] + items) == OneRedir(i) + Redirs(items)
  {
    assert ([i] + items)[1..] == items;
  }

  lemma {:induction false} ItemsSplit<W>(a: seq<Item<W>>, b: seq<Item<W>>)
    ensures ItemToks(a + b) == ItemToks(a) + ItemToks(b)
    ensures Args(a + b) == Args(a) + Args(b) && Redirs(a + b) == Redirs(a) + Redirs(b)
    decreases |a|
  {
    if a == [] {
      assert a + b == b;
    } else {
      hide ItemToks, Args, Redirs, OneToks, OneArg, OneRedir;
      assert a == [a[0]] + a[1..] && a + b == [a[0]] + (a[1..] + b);
      ItemsSplit(a[1..], b);
      ItemsCons(a[0], a[1..]);
      ItemsCons(a[0], a[1..] + b);
      Regroup(OneToks(a[0]), ItemToks(a[1..]), ItemToks(b));
      Regroup(OneArg(a[0]), Args(a[1..]), Args(b));
      Regroup(OneRedir(a[0]), Redirs(a[1..]), Redirs(b));
    }
  }

  lemma {:induction false} NoArgs<W>(items: seq<Item<W>>)
    requires AllRd(items)
    ensures Args(items) == []
    decreases |items|
  {
    if items != [] {
      NoArgs(items[1..]);
    }
  }

  lemma {:induction false} RedirsRead<W>(items: seq<Item<W>>, k: seq<Tok<W>>)
    requires ItemsOk(items) && AllRd(items) && !At(k, "<>+")
    ensures ParseRedirs(ItemToks(items) + k) == Ok(Redirs(items), k)
    decreases |items|
  {
    if items == [] {
      assert ItemToks(items) + k == k;
    } else {
      hide ItemToks, Redirs;
      RedirsRead(items[1..], k);
      assert items == [items[0]] + items[1..];
      ItemsCons(items[0], items[1..]);
      RedirOnTop(items[0], ItemToks(items[1..]), k);
      OneRedirRead(ItemToks(items) + k);
    }
  }

  lemma RedirOnTop<W>(i: Item<W>, ts: seq<Tok<W>>, k: seq<Tok<W>>)
    requires i.Rd?
    ensures var all := OneToks(i) + ts + k;
            |all| >= 2 && all[0] == Sym(i.sym) && all[1] == Word(i.file) && all[2..] == ts + k
  {
  }

  lemma OneRedirRead<W>(ts: seq<Tok<W>>)
    requires |ts| >= 2 && At(ts, "<>+") && ts[1].Word?
    ensures ParseRedirs(ts) == match ParseRedirs(ts[2..])
                               case Panic => Panic
                               case Ok(rs, rest) => Ok([Redir(ModeOf(ts[0].c), ts[1].w)] + rs, rest)
  {
  }

  predicate Stops<W>(k: seq<Tok<W>>) { k == [] || At(k, "|)&;") }

  /** The redirections in front are read, up to a word or the end. */
  lemma LeadRead<W>(items: seq<Item<W>>, k: seq<Tok<W>>)
    requires ItemsOk(items) && Stops(k)
    ensures var n := Lead(items);
            && ParseRedirs(ItemToks(items) + k) == Ok(Redirs(items[..n]), ItemToks(items[n..]) + k)
            && Args(items) == Args(items[n..]) && Redirs(items) == Redirs(items[..n]) + Redirs(items[n..])
  {
    hide ParseRedirs, ItemToks, Args, Redirs;
    var n := Lead(items);
    var a, b := items[..n], items[n..];
    assert items == a + b;
    ItemsSplit(a, b);
    NoArgs(a);
    NotRedir(b, k);
    assert ItemsOk(a);
    RedirsRead(a, ItemToks(b) + k);
    Regroup(ItemToks(a), ItemToks(b), k);
    assert [] + Args(b) == Args(b);
  }

  lemma NotRedir<W>(items: seq<Item<W>>, k: seq<Tok<W>>)
    requires (items == [] || items[0].Arg?) && Stops(k)
    ensures !At(ItemToks(items) + k, "<>+") && !At(ItemToks(items) + k, "(")
  {
    if items == [] {
      assert ItemToks(items) + k == k;
    } else {
      assert (ItemToks(items) + k)[0] == Word(items[0].w);
    }
  }

  lemma {:induction false} ArgsRead<W>(items: seq<Item<W>>, args: seq<W>, rs: seq<Redir<W>>, k: seq<Tok<W>>)
    requires ItemsOk(items) && (items == [] || items[0].Arg?) && Stops(k) && |args| < MAXARGS
    ensures ParseArgs(ItemToks(items) + k, args, rs) ==
            if |args| + |Args(items)| < MAXARGS
            then Ok(Wrap(Exec(args + Args(items)), rs + Redirs(items)), k) else Panic
    decreases |items|
  {
    hide ParseRedirs, ItemToks, Args, Redirs, Wrap, OneToks;
    var ts := ItemToks(items) + k;
    if items == [] {
      NoItems(items, args, rs, k);
    } else {
      var w, rest := items[0].w, items[1..];
      assert items == [items[0]] + rest;
      ItemsCons(items[0], rest);
      WordOnTop(items[0], ItemToks(rest), k);
      if |args| + 1 < MAXARGS {
        var n := Lead(rest);
        LeadRead(rest, k);
        ArgsRead(rest[n..], args + [w], rs + Redirs(rest[..n]), k);
        OneWord(ts, args, rs);
        Regroup(args, [w], Args(rest[n..]));
        Regroup(rs, Redirs(rest[..n]), Redirs(rest[n..]));
        assert [] + Redirs(rest) == Redirs(rest);
      } else {
        TooMany(ts, args, rs);
      }
    }
  }

  lemma NoItems<W>(items: seq<Item<W>>, args: seq<W>, rs: seq<Redir<W>>, k: seq<Tok<W>>)
    requires items == [] && Stops(k)
    ensures ItemToks(items) + k == k && args + Args(items) == args && rs + Redirs(items) == rs
    ensures ParseArgs(k, args, rs) == Ok(Wrap(Exec(args), rs), k) && Args(items) == []
  {
  }

  lemma WordOnTop<W>(i: Item<W>, ts: seq<Tok<W>>, k: seq<Tok<W>>)
    requires i.Arg?
    ensures OneToks(i) + ts + k == [Word(i.w)] + (ts + k)
    ensures (OneToks(i) + ts + k)[0] == Word(i.w) && (OneToks(i) + ts + k)[1..] == ts + k
  {
  }

  lemma SimpleRead<W>(items: seq<Item<W>>, k: seq<Tok<W>>)
    requires ItemsOk(items) && Stops(k)
    ensures ParseExec(ItemToks(items) + k) ==
            if |Args(items)| < MAXARGS then Ok(Wrap(Exec(Args(items)), Redirs(items)), k) else Panic
  {
    hide ParseRedirs, ParseArgs, ParseBlock, ItemToks, Args, Redirs, Wrap;
    var n := Lead(items);
    LeadRead(items, k);
    ArgsRead(items[n..], [], Redirs(items[..n]), k);
    NotOpening(items, k);
    assert [] + Args(items[n..]) == Args(items[n..]);
  }

  lemma NotOpening<W>(items: seq<Item<W>>, k: seq<Tok<W>>)
    requires ItemsOk(items) && Stops(k)
    ensures !At(ItemToks(items) + k, "(")
  {
    if items == [] {
      assert ItemToks(items) + k == k;
    } else {
      assert (ItemToks(items) + k)[0] == if items[0].Arg? then Word(items[0].w) else Sym(items[0].sym);
    }
  }

  /** What parsing a line before `k` should give. */
  function Meant<W>(ok: bool, c: Cmd<W>, k: seq<Tok<W>>): Res<Cmd<W>, W> { if ok then Ok(c, k) else Panic }

  lemma {:induction false} ElemRead<W>(e: Elem<W>, k: seq<Tok<W>>)
    requires ElemOk(e) && Stops(k)
    ensures ParseExec(ElemToks(e) + k) == Meant(ElemFits(e), ElemCmd(e), k)
    decreases e
  {
    match e
    case Simple(items) => SimpleRead(items, k);
    case Block(line, redirs) =>
      hide ParseRedirs, ParseLine, ParseArgs, ItemToks, LineToks, LineCmd, Wrap, LineOk, LineFits;
      var end := ItemToks(redirs) + k;
      var rest := [Sym(')')] + end;
      var ts := ElemToks(e) + k;
      assert ts == [Sym('(')] + (LineToks(line) + rest);
      assert ts[0] == Sym('(') && ts[1..] == LineToks(line) + rest;
      assert rest[0] == Sym(')') && rest[1..] == end;
      LineRead(line, rest);
      NotAfter(k);
      RedirsRead(redirs, k);
  }

  lemma NotAfter<W>(k: seq<Tok<W>>)
    requires Stops(k)
    ensures !At(k, "<>+")
  {
  }

  lemma {:induction false} PipeRead<W>(p: Pipeline<W>, k: seq<Tok<W>>)
    requires PipeOk(p) && (k == [] || At(k, ")&;"))
    ensures ParsePipe(PipeToks(p) + k) == Meant(PipeFits(p), PipeCmd(p), k)
    decreases p
  {
    hide ParseExec, ElemToks, ElemCmd, ElemFits, ElemOk;
    match p
    case One(e) => ElemRead(e, k);
    case Bar(e, more) =>
      var rest := [Sym('|')] + (PipeToks(more) + k);
      assert PipeToks(p) + k == ElemToks(e) + rest;
      assert rest[0] == Sym('|') && rest[1..] == PipeToks(more) + k;
      ElemRead(e, rest);
      PipeRead(more, k);
  }

  lemma {:induction false} AmpsRead<W>(c: Cmd<W>, n: nat, k: seq<Tok<W>>)
    requires !At(k, "&")
    ensures Backs(c, Amps(n) + k) == Ok(Backed(c, n), k)
    decreases n
  {
    if n == 0 {
      assert Amps<W>(n) + k == k;
    } else {
      var ts := Amps(n) + k;
      assert ts == [Sym('&')] + (Amps(n - 1) + k);
      assert ts[0] == Sym('&') && ts[1..] == Amps(n - 1) + k;
      AmpsRead(Back(c), n - 1, k);
    }
  }

  lemma AmpsStart<W>(n: nat, k: seq<Tok<W>>)
    requires k == [] || At(k, ");")
    ensures (Amps(n) + k == [] || At(Amps(n) + k, ")&;")) && !At(k, "&")
  {
    if n == 0 {
      assert Amps<W>(n) + k == k;
    } else {
      assert (Amps(n) + k)[0] == Sym('&');
    }
  }

  lemma HeadRead<W>(p: Pipeline<W>, amps: nat, k: seq<Tok<W>>)
    requires PipeOk(p) && (k == [] || At(k, ");"))
    requires ParsePipe(PipeToks(p) + (Amps(amps) + k)) == Meant(PipeFits(p), PipeCmd(p), Amps(amps) + k)
    ensures ParseHead(PipeToks(p) + (Amps(amps) + k)) == Meant(PipeFits(p), Backed(PipeCmd(p), amps), k)
  {
    hide ParsePipe, PipeToks, PipeCmd, PipeFits, PipeOk, Backs, Backed, Amps;
    AmpsStart(amps, k);
    AmpsRead(PipeCmd(p), amps, k);
  }

  /** Every line of the syntax parses to its meaning, or panics for a command with too many words. */
  lemma {:induction false} LineRead<W>(l: Line<W>, k: seq<Tok<W>>)
    requires LineOk(l) && (k == [] || At(k, ")"))
    ensures ParseLine(LineToks(l) + k) == Meant(LineFits(l), LineCmd(l), k)
    decreases l
  {
    hide ParsePipe, PipeToks, PipeCmd, PipeFits, PipeOk, Amps, Backed, ParseHead;
    match l
    case Last(p, amps) =>
      assert LineToks(l) + k == PipeToks(p) + (Amps(amps) + k);
      AmpsStart(amps, k);
      PipeRead(p, Amps(amps) + k);
      HeadRead(p, amps, k);
    case Semi(p, amps, more) =>
      var rest := [Sym(';')] + (LineToks(more) + k);
      assert LineToks(l) + k == PipeToks(p) + (Amps(amps) + rest);
      assert rest[0] == Sym(';') && rest[1..] == LineToks(more) + k;
      AmpsStart(amps, rest);
      PipeRead(p, Amps(amps) + rest);
      HeadRead(p, amps, rest);
      LineRead(more, k);
  }

  // ---------------------------------------------------------------- nothing else is read

  lemma {:induction false} RedirsOnly<W>(ts: seq<Tok<W>>) returns (items: seq<Item<W>>)
    requires ParseRedirs(ts).Ok?
    ensures ItemsOk(items) && AllRd(items)
    ensures ts == ItemToks(items) + ParseRedirs(ts).rest && ParseRedirs(ts).v == Redirs(items)
    decreases |ts|
  {
    if !At(ts, "<>+") {
      items := [];
      assert ts == ItemToks(items) + ts;
    } else {
      var more := RedirsOnly(ts[2..]);
      items := [Rd(ts[0].c, ts[1].w)] + more;
      PushRedir(ts, more, ParseRedirs(ts[2..]).rest);
    }
  }

  lemma PushRedir<W>(ts: seq<Tok<W>>, more: seq<Item<W>>, rest: seq<Tok<W>>)
    requires At(ts, "<>+") && |ts| >= 2 && ts[1].Word? && ts[2..] == ItemToks(more) + rest
    requires ItemsOk(more) && AllRd(more)
    ensures var items := [Rd(ts[0].c, ts[1].w)] + more;
            && ItemsOk(items) && AllRd(items) && ts == ItemToks(items) + rest
            && Redirs(items) == [Redir(ModeOf(ts[0].c), ts[1].w)] + Redirs(more)
  {
    hide ItemToks, Redirs;
    var i := Rd(ts[0].c, ts[1].w);
    ItemsCons(i, more);
    Regroup(OneToks(i), ItemToks(more), rest);
    assert ts == [ts[0], ts[1]] + ts[2..];
  }

  lemma {:induction false} ArgsOnly<W>(ts: seq<Tok<W>>, args: seq<W>, rs: seq<Redir<W>>) returns (items: seq<Item<W>>)
    requires ParseArgs(ts, args, rs).Ok? && |args| < MAXARGS
    ensures ItemsOk(items) && |args| + |Args(items)| < MAXARGS
    ensures ts == ItemToks(items) + ParseArgs(ts, args, rs).rest
    ensures ParseArgs(ts, args, rs).v == Wrap(Exec(args + Args(items)), rs + Redirs(items))
    decreases |ts|
  {
    hide ParseRedirs, ItemToks, Args, Redirs, Wrap, OneToks;
    if ts == [] || At(ts, "|)&;") {
      items := [];
      NoItems(items, args, rs, ts);
    } else {
      var a := RedirsOnly(ts[1..]);
      var w, end := ts[0].w, ParseRedirs(ts[1..]).rest;
      OneWord(ts, args, rs);
      var b := ArgsOnly(end, args + [w], rs + Redirs(a));
      items := [Arg(w)] + (a + b);
      ItemsCons(Arg(w), a + b);
      ItemsSplit(a, b);
      NoArgs(a);
      Regroup(args, [w], Args(b));
      Regroup(rs, Redirs(a), Redirs(b));
      assert [] + Args(b) == Args(b) && [] + (Redirs(a) + Redirs(b)) == Redirs(a) + Redirs(b);
      var k := ParseArgs(end, args + [w], rs + Redirs(a)).rest;
      WordOnTop(Arg(w), ItemToks(a + b), k);
      Regroup(ItemToks(a), ItemToks(b), k);
      assert ts == [Word(w)] + ts[1..];
    }
  }

  lemma {:induction false} ElemOnly<W>(ts: seq<Tok<W>>) returns (e: Elem<W>)
    requires ParseExec(ts).Ok?
    ensures ElemOk(e) && ElemFits(e) && ts == ElemToks(e) + ParseExec(ts).rest && ParseExec(ts).v == ElemCmd(e)
    decreases |ts|, 0
  {
    if At(ts, "(") {
      hide ParseRedirs, ParseLine, ParseArgs, ItemToks, LineToks, LineCmd, LineOk, LineFits, Wrap, ElemToks;
      var line := LineOnly(ts[1..]);
      var rest := ParseLine(ts[1..]).rest;
      var redirs := RedirsOnly(rest[1..]);
      e := Block(line, redirs);
      BlockToks(ts, line, rest, redirs, ParseRedirs(rest[1..]).rest);
    } else {
      e := SimpleOnly(ts);
    }
  }

  lemma SimpleOnly<W>(ts: seq<Tok<W>>) returns (e: Elem<W>)
    requires ParseExec(ts).Ok? && !At(ts, "(")
    ensures ElemOk(e) && ElemFits(e) && ts == ElemToks(e) + ParseExec(ts).rest && ParseExec(ts).v == ElemCmd(e)
  {
    hide ParseRedirs, ParseArgs, ItemToks, Args, Redirs, Wrap;
    var a := RedirsOnly(ts);
    var end := ParseRedirs(ts).rest;
    var b := ArgsOnly(end, [], Redirs(a));
    e := Simple(a + b);
    ItemsSplit(a, b);
    NoArgs(a);
    assert [] + Args(b) == Args(b);
    Regroup(ItemToks(a), ItemToks(b), ParseArgs(end, [], Redirs(a)).rest);
  }

  lemma BlockToks<W>(ts: seq<Tok<W>>, line: Line<W>, rest: seq<Tok<W>>, redirs: seq<Item<W>>, end: seq<Tok<W>>)
    requires At(ts, "(") && ts[1..] == LineToks(line) + rest && At(rest, ")") && rest[1..] == ItemToks(redirs) + end
    ensures ts == ElemToks(Block(line, redirs)) + end
  {
    hide LineToks, ItemToks;
    assert ts == [Sym('(')] + ts[1..] && rest == [Sym(')')] + rest[1..];
  }

  lemma {:induction false} PipeOnly<W>(ts: seq<Tok<W>>) returns (p: Pipeline<W>)
    requires ParsePipe(ts).Ok?
    ensures PipeOk(p) && PipeFits(p) && ts == PipeToks(p) + ParsePipe(ts).rest && ParsePipe(ts).v == PipeCmd(p)
    decreases |ts|, 1
  {
    hide ParseExec, ElemOk, ElemFits, ElemToks, ElemCmd;
    var e := ElemOnly(ts);
    var rest := ParseExec(ts).rest;
    if At(rest, "|") {
      var more := PipeOnly(rest[1..]);
      p := Bar(e, more);
      assert rest == [Sym('|')] + rest[1..];
    } else {
      p := One(e);
    }
  }

  lemma {:induction false} AmpsOnly<W>(c: Cmd<W>, ts: seq<Tok<W>>) returns (n: nat)
    ensures ts == Amps(n) + Backs(c, ts).rest && Backs(c, ts).v == Backed(c, n)
    decreases |ts|
  {
    if At(ts, "&") {
      n := AmpsOnly(Back(c), ts[1..]);
      n := n + 1;
      assert ts == [Sym('&')] + ts[1..];
    } else {
      n := 0;
      assert ts == Amps(0) + ts;
    }
  }

  /** Whatever parses is a line of the syntax, and what it parses to is the line's meaning. */
  lemma {:induction false} LineOnly<W>(ts: seq<Tok<W>>) returns (l: Line<W>)
    requires ParseLine(ts).Ok?
    ensures LineOk(l) && LineFits(l) && ts == LineToks(l) + ParseLine(ts).rest && ParseLine(ts).v == LineCmd(l)
    decreases |ts|, 2
  {
    hide ParsePipe, PipeOk, PipeFits, PipeToks, PipeCmd, Backs, Amps, Backed;
    var p := PipeOnly(ts);
    var mid := ParsePipe(ts).rest;
    var n := AmpsOnly(PipeCmd(p), mid);
    var rest := Backs(PipeCmd(p), mid).rest;
    if At(rest, ";") {
      var more := LineOnly(rest[1..]);
      l := Semi(p, n, more);
      assert rest == [Sym(';')] + rest[1..];
    } else {
      l := Last(p, n);
    }
  }

  /** `ts` is written as line `l`, which is as it should be. */
  ghost predicate Writes<W>(l: Line<W>, ts: seq<Tok<W>>) { LineOk(l) && LineToks(l) == ts }

  /** The parser is exactly the grammar: a whole token list parses to a command if and only if it is written as a
      line that means that command and fits. */
  lemma ParsesIffWritten<W(!new)>(ts: seq<Tok<W>>, c: Cmd<W>)
    ensures ParseLine(ts) == Ok(c, []) <==> exists l :: Writes(l, ts) && LineFits(l) && LineCmd(l) == c
  {
    hide ParseLine, LineToks, LineOk, LineFits, LineCmd;
    if ParseLine(ts) == Ok(c, []) {
      var l := LineOnly(ts);
      assert LineToks(l) + [] == LineToks(l);
      assert Writes(l, ts);
    }
    if exists l :: Writes(l, ts) && LineFits(l) && LineCmd(l) == c {
      var l :| Writes(l, ts) && LineFits(l) && LineCmd(l) == c;
      LineRead(l, []);
      assert LineToks(l) + [] == LineToks(l);
    }
  }

  /** The same for the text of a line: the shell accepts it exactly when its tokens are written as a line that fits,
      and panics otherwise, for leftovers too. */
  lemma AcceptsIffWritten(s: string, c: Cmd<ShellLex.Span>)
    ensures ShellLex.Parsed(s) == Ok(c, []) <==>
            exists l :: Writes(l, ShellLex.Lex(s, 0)) && LineFits(l) && LineCmd(l) == c
    ensures ShellLex.Parsed(s).Ok? ==> ShellLex.Parsed(s).rest == []
  {
    hide Writes, LineFits, LineCmd, ParseLine, ShellLex.Lex;
    ParsesIffWritten(ShellLex.Lex(s, 0), c);
  }
}
