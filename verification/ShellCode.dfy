/**
 * The shell's parser as it is written: gettoken and peek move a cursor over the line with loops, the
 * parse functions call each other, and nulterminate writes into the line.  Every method terminates on
 * every line, and computes what the grammar over tokens says.
 */
module ShellCode {
  import opened Common
  import opened ShellGrammar
  import opened ShellLex

  /** Advances the cursor past blanks, and no token with them. */
  method SkipWhite(s: string, i: nat) returns (j: nat)
    requires i <= |s|
    ensures j == Skip(s, i) && Lex(s, j) == Lex(s, i)
  {
    j := i;
    while j < |s| && s[j] in WHITESPACE
      invariant i <= j <= |s| && Skip(s, j) == Skip(s, i)
    {
      j := j + 1;
    }
    LexSkip(s, i);
  }

  /** gettoken: the next token and the cursor after it.  'a' stands for a word and 0 for the end. */
  method Gettoken(s: string, i: nat) returns (ret: char, q: nat, eq: nat, end: nat)
    requires i <= |s| && '\0' !in s
    ensures i <= end <= |s|
    ensures Lex(s, i) == [] ==> ret == '\0' && Lex(s, end) == []
    ensures Lex(s, i) != [] ==>
              && i < end && Lex(s, end) == Lex(s, i)[1..] && ret != '\0'
              && Lex(s, i)[0] == if ret == 'a' then Word(Span(q, eq)) else Sym(ret)
  {
    q := SkipWhite(s, i);
    eq := q;
    if q == |s| {
      ret := '\0';
    } else if s[q] in "|();&<" {
      ret := s[q];
      eq := q + 1;
    } else if s[q] == '>' {
      ret := '>';
      eq := q + 1;
      if eq < |s| && s[eq] == '>' {
        ret := '+';
        eq := eq + 1;
      }
    } else {
      ret := 'a';
      while eq < |s| && s[eq] !in WHITESPACE && s[eq] !in SYMBOLS
        invariant q <= eq <= |s| && WordEnd(s, eq) == WordEnd(s, q)
      {
        eq := eq + 1;
      }
    }
    assert q < |s| ==> Scan(s, q) == (if ret == 'a' then Word(Span(q, eq)) else Sym(ret), eq);
    end := SkipWhite(s, eq);
  }

  /** The character peek sees: the first of the next token. */
  predicate Sees(s: string, ts: seq<Tok<Span>>, toks: string) {
    ts != [] && match ts[0] {
      case Word(sp) => sp.q < |s| && s[sp.q] in toks
      case Sym(c) => (if c == '+' then '>' else c) in toks
    }
  }

  /** peek. */
  method Peek(s: string, i: nat, toks: string) returns (seen: bool, j: nat)
    requires i <= |s|
    ensures i <= j <= |s| && Lex(s, j) == Lex(s, i)
    ensures seen <==> Sees(s, Lex(s, i), toks)
  {
    j := SkipWhite(s, i);
    seen := j < |s| && s[j] in toks;
  }

  /** For symbols, what peek sees is what the next token is. */
  lemma SeesSymbol(s: string, i: nat, toks: string, cs: string)
    requires i <= |s| && (forall c :: c in toks ==> Symbol(c)) && '+' !in toks
    requires forall c :: c in cs <==> c in toks || (c == '+' && '>' in toks)
    ensures Sees(s, Lex(s, i), toks) <==> At(Lex(s, i), cs)
  {
    var j := Skip(s, i);
    if j < |s| {
      var t := Scan(s, j).0;
      assert Lex(s, i)[0] == t;
      assert t.Sym? && t.c == '+' ==> s[j] == '>';
    }
  }

  /** What a parse function must return: the value, and the cursor where its rest begins; None is a panic. */
  ghost predicate Agrees<T>(s: string, r: Option<T>, end: nat, want: Res<T, Span>) {
    match want
    case Panic => r == None
    case Ok(v, rest) => r == Some(v) && end <= |s| && Lex(s, end) == rest
  }

  /** parseredirs: the redirections in the order they are put around the command. */
  method Parseredirs(s: string, i: nat) returns (r: Option<seq<Redir<Span>>>, end: nat)
    requires i <= |s| && '\0' !in s
    ensures Agrees(s, r, end, ParseRedirs(Lex(s, i))) && (r.Some? ==> i <= end)
  {
    hide Lex, Sees;
    var rs := [];
    end := i;
    RedirsNone(ParseRedirs(Lex(s, i)), rs, Lex(s, i));
    while true
      invariant i <= end <= |s|
      invariant RedirsFrom(rs, ParseRedirs(Lex(s, end))) == ParseRedirs(Lex(s, i))
      decreases |s| - end
    {
      SeesSymbol(s, end, "<>", "<>+");
      var seen;
      seen, end := Peek(s, end, "<>");
      if !seen {
        RedirsNone(ParseRedirs(Lex(s, i)), rs, Lex(s, end));
        return Some(rs), end;
      }
      ghost var ts := Lex(s, end);
      var tok, _, _, next := Gettoken(s, end);
      var ret, q, eq, after := Gettoken(s, next);
      RedirsStep(rs, ts);
      if ret != 'a' {
        return None, end;
      }
      rs := rs + [Redir(if tok == '<' then In else Out, Span(q, eq))];
      end := after;
    }
  }

  function RedirsFrom<W>(rs: seq<Redir<W>>, r: Res<seq<Redir<W>>, W>): Res<seq<Redir<W>>, W> {
    match r case Panic => Panic case Ok(more, rest) => Ok(rs + more, rest)
  }

  lemma RedirsNone<W>(r: Res<seq<Redir<W>>, W>, rs: seq<Redir<W>>, ts: seq<Tok<W>>)
    ensures RedirsFrom([], r) == r
    ensures !At(ts, "<>+") ==> RedirsFrom(rs, ParseRedirs(ts)) == Ok(rs, ts)
  {
    assert r.Ok? ==> [] + r.v == r.v;
    assert rs + [] == rs;
  }

  lemma RedirsStep<W>(rs: seq<Redir<W>>, ts: seq<Tok<W>>)
    requires At(ts, "<>+")
    ensures if |ts| < 2 || !ts[1].Word? then ParseRedirs(ts) == Panic
            else RedirsFrom(rs, ParseRedirs(ts)) ==
                 RedirsFrom(rs + [Redir(ModeOf(ts[0].c), ts[1].w)], ParseRedirs(ts[2..]))
  {
    assert |ts| >= 2 && ts[1].Word? && ParseRedirs(ts[2..]).Ok? ==>
        ParseRedirs(ts).v == [Redir(ModeOf(ts[0].c), ts[1].w)] + ParseRedirs(ts[2..]).v;
    if |ts| >= 2 && ts[1].Word? {
      match ParseRedirs(ts[2..])
      case Panic =>
      case Ok(more, _) =>
        Regroup(rs, [Redir(ModeOf(ts[0].c), ts[1].w)], more);
    }
  }

  /** parseexec: at most nine words, with redirections anywhere among them. */
  method Parseexec(s: string, i: nat) returns (r: Option<Cmd<Span>>, end: nat)
    requires i <= |s| && '\0' !in s
    ensures Agrees(s, r, end, ParseExec(Lex(s, i))) && (r.Some? ==> i <= end)
    decreases |s| - i, 1
  {
    hide Lex, Sees, ParseRedirs, ParseBlock, ParseLine, Wrap;
    SeesSymbol(s, i, "(", "(");
    var seen;
    seen, end := Peek(s, i, "(");
    if seen {
      r, end := Parseblock(s, end);
      return;
    }
    var rs;
    var args := [];
    rs, end := Parseredirs(s, end);
    if rs.None? {
      return None, end;
    }
    while true
      invariant i <= end <= |s| && |args| < MAXARGS && rs.Some?
      invariant ParseArgs(Lex(s, end), args, rs.value) == ParseExec(Lex(s, i))
      decreases |s| - end
    {
      SeesSymbol(s, end, "|)&;", "|)&;");
      seen, end := Peek(s, end, "|)&;");
      if seen {
        break;
      }
      ghost var ts := Lex(s, end);
      var tok, q, eq, next := Gettoken(s, end);
      if tok == '\0' {
        break;
      }
      if tok != 'a' {
        return None, end;
      }
      if |args| + 1 >= MAXARGS {
        return None, end;
      }
      var more;
      more, next := Parseredirs(s, next);
      if more.None? {
        return None, end;
      }
      OneWord(ts, args, rs.value);
      args := args + [Span(q, eq)];
      rs := Some(rs.value + more.value);
      end := next;
    }
    return Some(Wrap(Exec(args), rs.value)), end;
  }

  /** parseblock. */
  method Parseblock(s: string, i: nat) returns (r: Option<Cmd<Span>>, end: nat)
    requires i <= |s| && '\0' !in s && At(Lex(s, i), "(")
    ensures Agrees(s, r, end, ParseBlock(Lex(s, i))) && (r.Some? ==> i <= end)
    decreases |s| - i, 0
  {
    hide Lex, Sees, ParseRedirs, ParseLine, Wrap;
    var _, _, _, next := Gettoken(s, i);
    r, end := Parseline(s, next);
    if r.None? {
      return;
    }
    SeesSymbol(s, end, ")", ")");
    var seen;
    seen, end := Peek(s, end, ")");
    if !seen {
      return None, end;
    }
    var _, _, _, after := Gettoken(s, end);
    var rs;
    rs, end := Parseredirs(s, after);
    if rs.None? {
      return None, end;
    }
    return Some(Wrap(r.value, rs.value)), end;
  }

  /** parsepipe. */
  method Parsepipe(s: string, i: nat) returns (r: Option<Cmd<Span>>, end: nat)
    requires i <= |s| && '\0' !in s
    ensures Agrees(s, r, end, ParsePipe(Lex(s, i))) && (r.Some? ==> i <= end)
    decreases |s| - i, 2
  {
    hide Lex, Sees, ParseExec;
    r, end := Parseexec(s, i);
    if r.None? {
      return;
    }
    SeesSymbol(s, end, "|", "|");
    var seen;
    seen, end := Peek(s, end, "|");
    if seen {
      var _, _, _, next := Gettoken(s, end);
      var right;
      right, end := Parsepipe(s, next);
      if right.None? {
        return None, end;
      }
      return Some(Pipe(r.value, right.value)), end;
    }
  }

  /** parseline. */
  method Parseline(s: string, i: nat) returns (r: Option<Cmd<Span>>, end: nat)
    requires i <= |s| && '\0' !in s
    ensures Agrees(s, r, end, ParseLine(Lex(s, i))) && (r.Some? ==> i <= end)
    decreases |s| - i, 3
  {
    hide Lex, Sees, ParsePipe;
    r, end := Parsepipe(s, i);
    if r.None? {
      return;
    }
    var cmd := r.value;
    var seen;
    while true
      invariant i <= end <= |s| && Backs(cmd, Lex(s, end)) == ParseHead(Lex(s, i))
      decreases |s| - end
    {
      SeesSymbol(s, end, "&", "&");
      seen, end := Peek(s, end, "&");
      if !seen {
        break;
      }
      var _, _, _, next := Gettoken(s, end);
      cmd, end := Back(cmd), next;
    }
    SeesSymbol(s, end, ";", ";");
    seen, end := Peek(s, end, ";");
    if seen {
      var _, _, _, next := Gettoken(s, end);
      var right;
      right, end := Parseline(s, next);
      if right.None? {
        return None, end;
      }
      return Some(List(cmd, right.value)), end;
    }
    return Some(cmd), end;
  }

  /** parsecmd before nulterminate: None is a panic, also for leftovers. */
  method Parsecmd(s: string) returns (r: Option<Cmd<Span>>)
    requires '\0' !in s
    ensures match Parsed(s) case Panic => r == None case Ok(c, _) => r == Some(c)
    ensures r.Some? ==> AllCmd(r.value, IsWord(s))
  {
    hide ParseLine, IsWord, AllCmd;
    var end;
    r, end := Parseline(s, 0);
    if r.None? {
      return;
    }
    ParsedWords(s);
    end := SkipWhite(s, end);
    if end != |s| {
      return None;
    }
  }

  // ---------------------------------------------------------------------------------------------
  // Terminating the words in place

  /** Position `k` is the end of some word of the command. */
  ghost predicate Ends(c: Cmd<Span>, k: nat) {
    match c
    case Exec(args) => exists i :: 0 <= i < |args| && args[i].eq == k
    case Redirect(d, _, f) => Ends(d, k) || f.eq == k
    case Pipe(a, b) => Ends(a, k) || Ends(b, k)
    case List(a, b) => Ends(a, k) || Ends(b, k)
    case Back(d) => Ends(d, k)
  }

  ghost function EndsIn(n: nat): Span -> bool { (sp: Span) => sp.eq < n }

  /** nulterminate: a zero at the end of every word, and nothing else changes. */
  method Nulterminate(buf: array<char>, cmd: Cmd<Span>)
    requires AllCmd(cmd, EndsIn(buf.Length))
    modifies buf
    ensures forall k :: 0 <= k < buf.Length ==> buf[k] == if Ends(cmd, k) then '\0' else old(buf[k])
    decreases cmd
  {
    match cmd
    case Exec(args) =>
      for i := 0 to |args|
        invariant forall k :: 0 <= k < buf.Length ==>
                    buf[k] == if Ends(Exec(args[..i]), k) then '\0' else old(buf[k])
      {
        assert EndsIn(buf.Length)(args[i]);
        EndsSnoc(args, i);
        buf[args[i].eq] := '\0';
      }
      assert args[..|args|] == args;
    case Redirect(d, _, f) =>
      Nulterminate(buf, d);
      buf[f.eq] := '\0';
    case Pipe(a, b) =>
      Nulterminate(buf, a);
      Nulterminate(buf, b);
    case List(a, b) =>
      Nulterminate(buf, a);
      Nulterminate(buf, b);
    case Back(d) => Nulterminate(buf, d);
  }

  lemma EndsSnoc(args: seq<Span>, i: nat)
    requires i < |args|
    ensures forall k: nat :: Ends(Exec(args[..i + 1]), k) <==> Ends(Exec(args[..i]), k) || args[i].eq == k
  {
    forall k: nat ensures Ends(Exec(args[..i + 1]), k) <==> Ends(Exec(args[..i]), k) || args[i].eq == k {
      var xs, ys := args[..i], args[..i + 1];
      assert ys == xs + [args[i]];
      if j :| 0 <= j < |xs| && xs[j].eq == k {
        assert ys[j].eq == k;
      }
      if args[i].eq == k {
        assert ys[i].eq == k;
      }
    }
  }

  /** The C string at position `i`: up to the first zero. */
  function CString(b: string, i: nat): string
    requires i <= |b|
    decreases |b| - i
  {
    if i == |b| || b[i] == '\0' then "" else [b[i]] + CString(b, i + 1)
  }

  lemma {:induction false} CStringIs(b: string, i: nat, e: nat)
    requires i <= e < |b| && b[e] == '\0' && forall k :: i <= k < e ==> b[k] != '\0'
    ensures CString(b, i) == b[i..e]
    decreases e - i
  {
    if i < e {
      CStringIs(b, i + 1, e);
    }
  }

  /** An end of one word is never inside another word of the same line. */
  lemma {:induction false} EndsOutside(s: string, c: Cmd<Span>, k: nat)
    requires AllCmd(c, IsWord(s)) && Ends(c, k)
    ensures k <= |s| && (k < |s| ==> !WordChar(s[k]))
    decreases c
  {
    match c
    case Exec(args) =>
      var i :| 0 <= i < |args| && args[i].eq == k;
      assert IsWord(s)(args[i]);
    case Redirect(d, _, f) =>
      if Ends(d, k) {
        EndsOutside(s, d, k);
      } else {
        assert IsWord(s)(f);
      }
    case Pipe(a, b) =>
      if Ends(a, k) {
        EndsOutside(s, a, k);
      } else {
        EndsOutside(s, b, k);
      }
    case List(a, b) =>
      if Ends(a, k) {
        EndsOutside(s, a, k);
      } else {
        EndsOutside(s, b, k);
      }
    case Back(d) => EndsOutside(s, d, k);
  }

  /** A word as the C string that starts where it does. */
  ghost function AsCString(b: string): Span -> string {
    (sp: Span) => if sp.q <= |b| then CString(b, sp.q) else ""
  }

  /** The line with a zero at every end of a word of `c`. */
  ghost predicate Terminated(s: string, b: string, c: Cmd<Span>) {
    |b| == |s| + 1 && forall k :: 0 <= k < |b| ==> b[k] == if Ends(c, k) then '\0' else (s + ['\0'])[k]
  }

  lemma WordReadsBack(s: string, b: string, c: Cmd<Span>, sp: Span)
    requires '\0' !in s && AllCmd(c, IsWord(s)) && Terminated(s, b, c) && WordSpan(s, sp) && Ends(c, sp.eq)
    ensures AsCString(b)(sp) == Reader(s)(sp)
  {
    forall k | sp.q <= k < sp.eq ensures b[k] == s[k] && b[k] != '\0' {
      if Ends(c, k) {
        EndsOutside(s, c, k);
        assert false;
      }
    }
    CStringIs(b, sp.q, sp.eq);
    assert b[sp.q..sp.eq] == s[sp.q..sp.eq];
  }

  /** After nulterminate every word of the command, read as a C string, is exactly its token. */
  lemma {:induction false} WordsReadBack(s: string, b: string, whole: Cmd<Span>, c: Cmd<Span>)
    requires '\0' !in s && AllCmd(whole, IsWord(s)) && Terminated(s, b, whole) && AllCmd(c, IsWord(s))
    requires forall k: nat :: Ends(c, k) ==> Ends(whole, k)
    ensures MapCmd(AsCString(b), c) == MapCmd(Reader(s), c)
    decreases c
  {
    hide Terminated, WordSpan;
    match c
    case Exec(args) =>
      forall i | 0 <= i < |args| ensures AsCString(b)(args[i]) == Reader(s)(args[i]) {
        assert IsWord(s)(args[i]) && Ends(c, args[i].eq);
        WordReadsBack(s, b, whole, args[i]);
      }
      assert MapWords(AsCString(b), args) == MapWords(Reader(s), args);
    case Redirect(d, _, f) =>
      assert IsWord(s)(f) && Ends(c, f.eq);
      WordReadsBack(s, b, whole, f);
      WordsReadBack(s, b, whole, d);
    case Pipe(x, y) =>
      WordsReadBack(s, b, whole, x);
      WordsReadBack(s, b, whole, y);
    case List(x, y) =>
      WordsReadBack(s, b, whole, x);
      WordsReadBack(s, b, whole, y);
    case Back(d) => WordsReadBack(s, b, whole, d);
  }

  lemma {:induction false} EndsFit(s: string, c: Cmd<Span>)
    requires AllCmd(c, IsWord(s))
    ensures AllCmd(c, EndsIn(|s| + 1))
    decreases c
  {
    match c
    case Exec(args) =>
      forall i | 0 <= i < |args| ensures EndsIn(|s| + 1)(args[i]) {
        assert IsWord(s)(args[i]);
      }
    case Redirect(d, _, f) => assert IsWord(s)(f); EndsFit(s, d);
    case Pipe(x, y) => EndsFit(s, x); EndsFit(s, y);
    case List(x, y) => EndsFit(s, x); EndsFit(s, y);
    case Back(d) => EndsFit(s, d);
  }

  /** parsecmd on a line in a buffer that ends with a zero. */
  method ParseBuffer(buf: array<char>) returns (r: Option<Cmd<Span>>)
    requires buf.Length > 0 && buf[buf.Length - 1] == '\0'
    requires forall k :: 0 <= k < buf.Length - 1 ==> buf[k] != '\0'
    modifies buf
    ensures match Parsed(old(buf[..buf.Length - 1])) case Panic => r == None case Ok(c, _) => r == Some(c)
    ensures r.Some? ==> MapCmd(AsCString(buf[..]), r.value) == MapCmd(Reader(old(buf[..buf.Length - 1])), r.value)
  {
    hide Parsed, AllCmd, Ends, MapCmd, IsWord;
    var s := buf[..buf.Length - 1];
    r := Parsecmd(s);
    if r.Some? {
      EndsFit(s, r.value);
      Nulterminate(buf, r.value);
      assert Terminated(s, buf[..], r.value);
      WordsReadBack(s, buf[..], r.value, r.value);
    }
  }
}
