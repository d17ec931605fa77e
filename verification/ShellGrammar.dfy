/**
 * The shell's grammar over tokens.  A word is anything (a place in the line, or its text); a panic is a
 * result.  Printing a command tree, with parentheses where the grammar needs them, and parsing it again
 * gives the same tree.
 */
module ShellGrammar {

  /** The symbols are < > | & ; ( ) and '+' for >>. */
  datatype Tok<W> = Word(w: W) | Sym(c: char)

  /** >> opens its file just as > does. */
  datatype Mode = In | Out
  datatype Redir<W> = Redir(mode: Mode, file: W)

  datatype Cmd<W> =
    | Exec(args: seq<W>)
    | Redirect(cmd: Cmd<W>, mode: Mode, file: W)
    | Pipe(left: Cmd<W>, right: Cmd<W>)
    | List(left: Cmd<W>, right: Cmd<W>)
    | Back(cmd: Cmd<W>)

  datatype Res<T, W> = Panic | Ok(v: T, rest: seq<Tok<W>>)

  const MAXARGS: nat := 10

  predicate At<W>(ts: seq<Tok<W>>, cs: string) { ts != [] && ts[0].Sym? && ts[0].c in cs }

  function ModeOf(c: char): Mode { if c == '<' then In else Out }

  /** The command with redirections put around it, the first innermost. */
  function Wrap<W>(c: Cmd<W>, rs: seq<Redir<W>>): Cmd<W>
    decreases |rs|
  {
    if rs == [] then c else Wrap(Redirect(c, rs[0].mode, rs[0].file), rs[1..])
  }

  // ---------------------------------------------------------------------------------------------
  // The parser

  /** parseredirs. */
  function ParseRedirs<W>(ts: seq<Tok<W>>): (r: Res<seq<Redir<W>>, W>)
    ensures r.Ok? ==> |r.rest| <= |ts| && !At(r.rest, "<>+")
  {
    if !At(ts, "<>+") then Ok([], ts)
    else if |ts| < 2 || !ts[1].Word? then Panic
    else match ParseRedirs(ts[2..]) {
      case Panic => Panic
      case Ok(rs, rest) => Ok([Redir(ModeOf(ts[0].c), ts[1].w)] + rs, rest)
    }
  }

  /** parseexec's loop, with the words and redirections found so far. */
  function ParseArgs<W>(ts: seq<Tok<W>>, args: seq<W>, rs: seq<Redir<W>>): (r: Res<Cmd<W>, W>)
    ensures r.Ok? ==> |r.rest| <= |ts|
    decreases |ts|
  {
    if ts == [] || At(ts, "|)&;") then Ok(Wrap(Exec(args), rs), ts)
    else if !ts[0].Word? || |args| + 1 >= MAXARGS then Panic
    else match ParseRedirs(ts[1..]) {
      case Panic => Panic
      case Ok(more, rest) => ParseArgs(rest, args + [ts[0].w], rs + more)
    }
  }

  function ParseExec<W>(ts: seq<Tok<W>>): (r: Res<Cmd<W>, W>)
    ensures r.Ok? ==> |r.rest| <= |ts|
    decreases |ts|, 1
  {
    if At(ts, "(") then ParseBlock(ts)
    else match ParseRedirs(ts) {
      case Panic => Panic
      case Ok(rs, rest) => ParseArgs(rest, [], rs)
    }
  }

  function ParseBlock<W>(ts: seq<Tok<W>>): (r: Res<Cmd<W>, W>)
    requires At(ts, "(")
    ensures r.Ok? ==> |r.rest| <= |ts|
    decreases |ts|, 0
  {
    match ParseLine(ts[1..])
    case Panic => Panic
    case Ok(c, rest) =>
      if !At(rest, ")") then Panic
      else match ParseRedirs(rest[1..]) {
        case Panic => Panic
        case Ok(rs, end) => Ok(Wrap(c, rs), end)
      }
  }

  function ParsePipe<W>(ts: seq<Tok<W>>): (r: Res<Cmd<W>, W>)
    ensures r.Ok? ==> |r.rest| <= |ts|
    decreases |ts|, 2
  {
    match ParseExec(ts)
    case Panic => Panic
    case Ok(c, rest) =>
      if !At(rest, "|") then Ok(c, rest)
      else match ParsePipe(rest[1..]) {
        case Panic => Panic
        case Ok(d, end) => Ok(Pipe(c, d), end)
      }
  }

  /** parseline's loop over ampersands. */
  function Backs<W>(c: Cmd<W>, ts: seq<Tok<W>>): (r: Res<Cmd<W>, W>)
    ensures r.Ok? && |r.rest| <= |ts| && !At(r.rest, "&")
    decreases |ts|
  {
    if At(ts, "&") then Backs(Back(c), ts[1..]) else Ok(c, ts)
  }

  /** parseline up to its semicolon. */
  function ParseHead<W>(ts: seq<Tok<W>>): (r: Res<Cmd<W>, W>)
    ensures r.Ok? ==> |r.rest| <= |ts|
    decreases |ts|, 3
  {
    match ParsePipe(ts)
    case Panic => Panic
    case Ok(c, rest) => Backs(c, rest)
  }

  function ParseLine<W>(ts: seq<Tok<W>>): (r: Res<Cmd<W>, W>)
    ensures r.Ok? ==> |r.rest| <= |ts|
    decreases |ts|, 4
  {
    match ParseHead(ts)
    case Panic => Panic
    case Ok(c, rest) =>
      if !At(rest, ";") then Ok(c, rest)
      else match ParseLine(rest[1..]) {
        case Panic => Panic
        case Ok(d, end) => Ok(List(c, d), end)
      }
  }

  // ---------------------------------------------------------------------------------------------
  // Printing

  /** The loosest level at which a command needs no parentheses: 0 a line, 1 before a semicolon, 2 a
      pipeline, 3 an element of a pipeline. */
  function Level<W>(t: Cmd<W>): nat {
    match t case List(_, _) => 0 case Back(_) => 1 case Pipe(_, _) => 2 case _ => 3
  }

  function Body<W>(t: Cmd<W>): seq<Tok<W>>
    decreases t, 0
  {
    match t
    case Exec(args) => Words(args)
    case Redirect(c, m, f) => Print(c, 3) + RedirToks([Redir(m, f)])
    case Pipe(a, b) => Print(a, 3) + [Sym('|')] + Print(b, 2)
    case List(a, b) => Print(a, 1) + [Sym(';')] + Print(b, 0)
    case Back(c) => Print(c, 1) + [Sym('&')]
  }

  function Print<W>(t: Cmd<W>, level: nat): seq<Tok<W>>
    decreases t, 1
  {
    if level <= Level(t) then Body(t) else [Sym('(')] + Body(t) + [Sym(')')]
  }

  function Words<W>(args: seq<W>): (ts: seq<Tok<W>>)
  {
    if args == [] then [] else [Word(args[0])] + Words(args[1..])
  }

  function RedirToks<W>(rs: seq<Redir<W>>): seq<Tok<W>> {
    if rs == [] then [] else [Sym(if rs[0].mode == In then '<' else '>'), Word(rs[0].file)] + RedirToks(rs[1..])
  }

  /** Every command has at most nine words. */
  predicate Fits<W>(t: Cmd<W>) {
    match t
    case Exec(args) => |args| < MAXARGS
    case Redirect(c, _, _) => Fits(c)
    case Pipe(a, b) => Fits(a) && Fits(b)
    case List(a, b) => Fits(a) && Fits(b)
    case Back(c) => Fits(c)
  }

  // ---------------------------------------------------------------------------------------------
  // The round trip

  lemma Regroup<T>(a: seq<T>, b: seq<T>, c: seq<T>)
    ensures a + b + c == a + (b + c)
  {
  }

  /** What parsing the printed form of `t` before `k` should give. */
  function Want<W>(t: Cmd<W>, k: seq<Tok<W>>): Res<Cmd<W>, W> { if Fits(t) then Ok(t, k) else Panic }

  lemma {:induction false} RedirsBack<W>(rs: seq<Redir<W>>, k: seq<Tok<W>>)
    requires !At(k, "<>+")
    ensures ParseRedirs(RedirToks(rs) + k) == Ok(rs, k)
    decreases |rs|
  {
    if rs == [] {
      assert RedirToks(rs) + k == k;
    } else {
      var ts, r := RedirToks(rs) + k, rs[0];
      assert ts[0] == Sym(if r.mode == In then '<' else '>') && ts[1] == Word(r.file);
      assert ts[2..] == RedirToks(rs[1..]) + k;
      RedirsBack(rs[1..], k);
      assert [r] + rs[1..] == rs;
    }
  }

  /** A word first: no redirection is read before it. */
  lemma WordFirst<W>(args: seq<W>, k: seq<Tok<W>>)
    requires args != []
    ensures var ts := Words(args) + k;
            ts != [] && ts[0] == Word(args[0]) && ts[1..] == Words(args[1..]) + k && ParseRedirs(ts) == Ok([], ts)
  {
    var ts := [Word(args[0])] + (Words(args[1..]) + k);
    assert Words(args) + k == ts && ts[0] == Word(args[0]);
    assert !At(ts, "<>+");
  }

  /** The words from `i` on, then redirections, then `k`. */
  lemma {:induction false} ArgsBack<W>(args: seq<W>, i: nat, rs: seq<Redir<W>>, k: seq<Tok<W>>)
    requires i < |args| && (k == [] || At(k, "|)&;")) && i + 1 < MAXARGS
    ensures ParseArgs(Words(args[i..]) + (RedirToks(rs) + k), args[..i], []) ==
            if |args| < MAXARGS then Ok(Wrap(Exec(args), rs), k) else Panic
    decreases |args| - i
  {
    hide ParseRedirs, RedirToks, Words, Wrap;
    var tail, none: seq<Redir<W>> := RedirToks(rs) + k, [];
    WordFirst(args[i..], tail);
    assert args[i..][1..] == args[i + 1..] && args[..i] + [args[i]] == args[..i + 1];
    if i + 1 == |args| {
      NoWords(args[i + 1..], tail);
      RedirsBack(rs, k);
      OneWord(Words(args[i..]) + tail, args[..i], none);
      assert args[..i + 1] == args && none + rs == rs;
    } else {
      WordFirst(args[i + 1..], tail);
      OneWord(Words(args[i..]) + tail, args[..i], none);
      assert none + none == none;
      if i + 2 < MAXARGS {
        ArgsBack(args, i + 1, rs, k);
      } else {
        TooMany(Words(args[i + 1..]) + tail, args[..i + 1], none);
      }
    }
  }

  lemma TooMany<W>(ts: seq<Tok<W>>, args: seq<W>, rs: seq<Redir<W>>)
    requires ts != [] && ts[0].Word? && |args| + 1 >= MAXARGS
    ensures ParseArgs(ts, args, rs) == Panic
  {
  }

  lemma OneWord<W>(ts: seq<Tok<W>>, args: seq<W>, rs: seq<Redir<W>>)
    requires ts != [] && ts[0].Word? && |args| + 1 < MAXARGS && ParseRedirs(ts[1..]).Ok?
    ensures ParseArgs(ts, args, rs) ==
            ParseArgs(ParseRedirs(ts[1..]).rest, args + [ts[0].w], rs + ParseRedirs(ts[1..]).v)
  {
  }

  lemma NoWords<W>(args: seq<W>, k: seq<Tok<W>>)
    requires args == []
    ensures Words(args) + k == k
  {
  }

  lemma ExecWordsBack<W>(args: seq<W>, rs: seq<Redir<W>>, k: seq<Tok<W>>)
    requires k == [] || At(k, "|)&;")
    ensures ParseExec(Words(args) + RedirToks(rs) + k) ==
            if |args| < MAXARGS then Ok(Wrap(Exec(args), rs), k) else Panic
  {
    hide ParseRedirs, RedirToks, Words, Wrap, ParseArgs, ParseBlock;
    var tail := RedirToks(rs) + k;
    assert Words(args) + RedirToks(rs) + k == Words(args) + tail;
    if args == [] {
      NoWords(args, tail);
      RedirsBack(rs, k);
      NotOpen(rs, k);
      NoArgs(rs, k);
    } else {
      WordFirst(args, tail);
      assert args[0..] == args && args[..0] == [];
      ArgsBack(args, 0, rs, k);
    }
  }

  lemma NotOpen<W>(rs: seq<Redir<W>>, k: seq<Tok<W>>)
    requires k == [] || At(k, "|)&;")
    ensures !At(RedirToks(rs) + k, "(")
  {
  }

  lemma NoArgs<W>(rs: seq<Redir<W>>, k: seq<Tok<W>>)
    requires k == [] || At(k, "|)&;")
    ensures ParseArgs(k, [], rs) == Ok(Wrap(Exec([]), rs), k)
  {
  }

  lemma {:induction false} ExecBack<W>(t: Cmd<W>, rs: seq<Redir<W>>, k: seq<Tok<W>>)
    requires k == [] || At(k, "|)&;")
    ensures ParseExec(Print(t, 3) + RedirToks(rs) + k) == if Fits(t) then Ok(Wrap(t, rs), k) else Panic
    decreases t, (Level(t) + 1) % 4
  {
    match t
    case Exec(args) => ExecWordsBack(args, rs, k);
    case Redirect(c, m, f) =>
      OneMore(t, rs, k);
      ExecBack(c, [Redir(m, f)] + rs, k);
    case _ =>
      LineBack(t, [Sym(')')] + RedirToks(rs) + k);
      BlockBack(t, rs, k);
  }

  lemma OneMore<W>(t: Cmd<W>, rs: seq<Redir<W>>, k: seq<Tok<W>>)
    requires t.Redirect?
    ensures var more := [Redir(t.mode, t.file)] + rs;
            Print(t, 3) + RedirToks(rs) + k == Print(t.cmd, 3) + RedirToks(more) + k && Wrap(t.cmd, more) == Wrap(t, rs)
  {
    var one := [Redir(t.mode, t.file)];
    assert (one + rs)[1..] == rs && one[1..] == [];
    assert RedirToks(one + rs) == RedirToks(one) + RedirToks(rs);
  }

  lemma BlockBack<W>(t: Cmd<W>, rs: seq<Redir<W>>, k: seq<Tok<W>>)
    requires (k == [] || At(k, "|)&;")) && Level(t) < 3
    requires ParseLine(Print(t, 0) + ([Sym(')')] + RedirToks(rs) + k)) == Want(t, [Sym(')')] + RedirToks(rs) + k)
    ensures ParseExec(Print(t, 3) + RedirToks(rs) + k) == if Fits(t) then Ok(Wrap(t, rs), k) else Panic
  {
    hide Body, ParseLine, Fits, ParseRedirs, RedirToks, Wrap, ParseArgs, Level;
    var ts := Print(t, 3) + RedirToks(rs) + k;
    var rest := [Sym(')')] + RedirToks(rs) + k;
    Parenthesized(t);
    assert ts == [Sym('(')] + (Print(t, 0) + rest);
    assert ts[0] == Sym('(') && ts[1..] == Print(t, 0) + rest;
    assert rest == [Sym(')')] + (RedirToks(rs) + k);
    assert rest[1..] == RedirToks(rs) + k;
    RedirsBack(rs, k);
  }

  lemma Parenthesized<W>(t: Cmd<W>)
    requires Level(t) < 3
    ensures Print(t, 3) == [Sym('(')] + Print(t, 0) + [Sym(')')]
  {
  }

  lemma {:induction false} PipeBack<W>(t: Cmd<W>, k: seq<Tok<W>>)
    requires k == [] || At(k, ")&;")
    ensures ParsePipe(Print(t, 2) + k) == Want(t, k)
    decreases t, (Level(t) + 2) % 4
  {
    if t.Pipe? {
      var rest := [Sym('|')] + Print(t.right, 2) + k;
      assert Print(t, 2) + k == Print(t.left, 3) + RedirToks([]) + rest;
      ExecBack(t.left, [], rest);
      assert rest[1..] == Print(t.right, 2) + k;
      PipeBack(t.right, k);
    } else {
      assert Print(t, 2) + k == Print(t, 3) + RedirToks([]) + k;
      ExecBack(t, [], k);
    }
  }

  lemma {:induction false} HeadBack<W>(t: Cmd<W>, k: seq<Tok<W>>)
    requires k == [] || At(k, ")&;")
    ensures ParseHead(Print(t, 1) + k) == if Fits(t) then Backs(t, k) else Panic
    decreases t, (Level(t) + 3) % 4
  {
    if t.Back? {
      var rest := [Sym('&')] + k;
      assert Print(t, 1) + k == Print(t.cmd, 1) + rest;
      HeadBack(t.cmd, rest);
      assert rest[1..] == k;
    } else {
      PipeBack(t, k);
    }
  }

  lemma {:induction false} LineBack<W>(t: Cmd<W>, k: seq<Tok<W>>)
    requires k == [] || At(k, ")")
    ensures ParseLine(Print(t, 0) + k) == Want(t, k)
    decreases t, Level(t) % 4
  {
    if t.List? {
      var rest := [Sym(';')] + Print(t.right, 0) + k;
      assert Print(t, 0) + k == Print(t.left, 1) + rest;
      HeadBack(t.left, rest);
      assert rest[1..] == Print(t.right, 0) + k;
      LineBack(t.right, k);
    } else {
      HeadBack(t, k);
    }
  }

  /** Parsing the printed form of any tree gives the tree back if every command has at most nine words,
      and panics if not. */
  lemma PrintThenParse<W>(t: Cmd<W>)
    ensures ParseLine(Print(t, 0)) == if Fits(t) then Ok(t, []) else Panic
  {
    assert Print(t, 0) + [] == Print(t, 0);
    LineBack(t, []);
  }
}
