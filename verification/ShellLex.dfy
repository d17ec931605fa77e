/**
 * The shell's tokens: how a line of characters is cut into words and symbols, and what that makes of a
 * printed command.  Words are places in the line; their text is read off the line.
 */
module ShellLex {
  import opened ShellGrammar

  const WHITESPACE: string := [' ', '\t', '\r', '\n', '\U{0B}']
  const SYMBOLS: string := "<|>&;()"

  predicate White(c: char) { c in WHITESPACE }
  predicate Symbol(c: char) { c in SYMBOLS }
  predicate WordChar(c: char) { !White(c) && !Symbol(c) }

  /** The characters from q up to eq. */
  datatype Span = Span(q: nat, eq: nat)

  function Skip(s: string, i: nat): (j: nat)
    requires i <= |s|
    ensures i <= j <= |s| && (j < |s| ==> !White(s[j]))
    decreases |s| - i
  {
    if i < |s| && White(s[i]) then Skip(s, i + 1) else i
  }

  function WordEnd(s: string, i: nat): (j: nat)
    requires i <= |s|
    ensures i <= j <= |s| && (j < |s| ==> !WordChar(s[j])) && forall k :: i <= k < j ==> WordChar(s[k])
    decreases |s| - i
  {
    if i < |s| && WordChar(s[i]) then WordEnd(s, i + 1) else i
  }

  /** The token at `j` and where it ends. */
  function Scan(s: string, j: nat): (r: (Tok<Span>, nat))
    requires j < |s| && !White(s[j])
    ensures j < r.1 <= |s|
  {
    if s[j] == '>' && j + 1 < |s| && s[j + 1] == '>' then (Sym('+'), j + 2)
    else if Symbol(s[j]) then (Sym(s[j]), j + 1)
    else (Word(Span(j, WordEnd(s, j))), WordEnd(s, j))
  }

  function Lex(s: string, i: nat): seq<Tok<Span>>
    requires i <= |s|
    decreases |s| - i
  {
    var j := Skip(s, i);
    if j == |s| then []
    else
      var (t, e) := Scan(s, j);
      [t] + Lex(s, e)
  }

  lemma LexSkip(s: string, i: nat)
    requires i <= |s|
    ensures Lex(s, Skip(s, i)) == Lex(s, i)
  {
    assert Skip(s, Skip(s, i)) == Skip(s, i);
  }

  lemma LexWhite(s: string, i: nat)
    requires i < |s| && White(s[i])
    ensures Lex(s, i) == Lex(s, i + 1)
  {
    assert Skip(s, i) == Skip(s, i + 1);
  }

  /** A place in the line that is a whole word: word characters, and none after it. */
  ghost predicate WordSpan(s: string, sp: Span) {
    && sp.q < sp.eq <= |s|
    && (forall k :: sp.q <= k < sp.eq ==> WordChar(s[k]))
    && (sp.eq < |s| ==> !WordChar(s[sp.eq]))
  }

  // ---------------------------------------------------------------------------------------------
  // Properties of words and readings of words, through the parser

  ghost predicate AllCmd<W(!new)>(c: Cmd<W>, p: W -> bool) {
    match c
    case Exec(args) => forall i :: 0 <= i < |args| ==> p(args[i])
    case Redirect(d, _, f) => AllCmd(d, p) && p(f)
    case Pipe(a, b) => AllCmd(a, p) && AllCmd(b, p)
    case List(a, b) => AllCmd(a, p) && AllCmd(b, p)
    case Back(d) => AllCmd(d, p)
  }

  /** A token with its word read in another way; with `plain`, >> also becomes >. */
  function MapTok<W, V>(f: W -> V, t: Tok<W>, plain: bool := false): Tok<V> {
    match t case Word(w) => Word(f(w)) case Sym(c) => Sym(if plain && c == '+' then '>' else c)
  }

  function MapToks<W, V>(f: W -> V, ts: seq<Tok<W>>, plain: bool := false): (us: seq<Tok<V>>)
    ensures |us| == |ts| && forall i :: 0 <= i < |ts| ==> us[i] == MapTok(f, ts[i], plain)
  {
    if ts == [] then [] else [MapTok(f, ts[0], plain)] + MapToks(f, ts[1..], plain)
  }

  function MapWords<W, V>(f: W -> V, ws: seq<W>): (vs: seq<V>)
    ensures |vs| == |ws| && forall i :: 0 <= i < |ws| ==> vs[i] == f(ws[i])
  {
    if ws == [] then [] else [f(ws[0])] + MapWords(f, ws[1..])
  }

  function MapCmd<W, V>(f: W -> V, c: Cmd<W>): Cmd<V> {
    match c
    case Exec(args) => Exec(MapWords(f, args))
    case Redirect(d, m, w) => Redirect(MapCmd(f, d), m, f(w))
    case Pipe(a, b) => Pipe(MapCmd(f, a), MapCmd(f, b))
    case List(a, b) => List(MapCmd(f, a), MapCmd(f, b))
    case Back(d) => Back(MapCmd(f, d))
  }

  function MapRedirs<W, V>(f: W -> V, rs: seq<Redir<W>>): (us: seq<Redir<V>>)
    ensures |us| == |rs| && forall i :: 0 <= i < |rs| ==> us[i] == Redir(rs[i].mode, f(rs[i].file))
  {
    if rs == [] then [] else [Redir(rs[0].mode, f(rs[0].file))] + MapRedirs(f, rs[1..])
  }

  function MapRes<W, V>(f: W -> V, r: Res<Cmd<W>, W>, plain: bool := false): Res<Cmd<V>, V> {
    match r case Panic => Panic case Ok(c, rest) => Ok(MapCmd(f, c), MapToks(f, rest, plain))
  }

  lemma MapSlice<W, V>(f: W -> V, ts: seq<Tok<W>>, k: nat, plain: bool := false)
    requires k <= |ts|
    ensures MapToks(f, ts[k..], plain) == MapToks(f, ts, plain)[k..]
  {
  }

  lemma MapAt<W, V>(f: W -> V, ts: seq<Tok<W>>, cs: string, plain: bool := false)
    requires '+' in cs <==> '>' in cs
    ensures At(MapToks(f, ts, plain), cs) == At(ts, cs)
  {
  }

  lemma {:induction false} MapWrap<W, V>(f: W -> V, c: Cmd<W>, rs: seq<Redir<W>>)
    ensures MapCmd(f, Wrap(c, rs)) == Wrap(MapCmd(f, c), MapRedirs(f, rs))
    decreases |rs|
  {
    if rs != [] {
      MapWrap(f, Redirect(c, rs[0].mode, rs[0].file), rs[1..]);
      assert MapRedirs(f, rs)[1..] == MapRedirs(f, rs[1..]);
    }
  }

  lemma {:induction false} MapParseRedirs<W, V>(f: W -> V, ts: seq<Tok<W>>, plain: bool := false)
    ensures match ParseRedirs(ts)
            case Panic => ParseRedirs(MapToks(f, ts, plain)) == Panic
            case Ok(rs, rest) => ParseRedirs(MapToks(f, ts, plain)) == Ok(MapRedirs(f, rs), MapToks(f, rest, plain))
    decreases |ts|
  {
    MapAt(f, ts, "<>+", plain);
    if At(ts, "<>+") && |ts| >= 2 && ts[1].Word? {
      MapParseRedirs(f, ts[2..], plain);
      MapSlice(f, ts, 2, plain);
    }
  }

  lemma MapJoin<W, V>(f: W -> V, args: seq<W>, w: W, rs: seq<Redir<W>>, more: seq<Redir<W>>)
    ensures MapWords(f, args + [w]) == MapWords(f, args) + [f(w)]
    ensures MapRedirs(f, rs + more) == MapRedirs(f, rs) + MapRedirs(f, more)
  {
  }

  lemma {:induction false} MapParseArgs<W, V>(f: W -> V, ts: seq<Tok<W>>, args: seq<W>, rs: seq<Redir<W>>,
                                              plain: bool := false)
    ensures ParseArgs(MapToks(f, ts, plain), MapWords(f, args), MapRedirs(f, rs)) ==
            MapRes(f, ParseArgs(ts, args, rs), plain)
    decreases |ts|
  {
    hide MapToks, MapWords, MapRedirs, ParseRedirs, Wrap;
    MapAt(f, ts, "|)&;", plain);
    if ts == [] || At(ts, "|)&;") {
      MapWrap(f, Exec(args), rs);
    } else if ts[0].Word? && |args| + 1 < MAXARGS {
      MapSlice(f, ts, 1, plain);
      MapParseRedirs(f, ts[1..], plain);
      match ParseRedirs(ts[1..])
      case Panic =>
      case Ok(more, rest) =>
        MapParseArgs(f, rest, args + [ts[0].w], rs + more, plain);
        MapJoin(f, args, ts[0].w, rs, more);
        OneWord(ts, args, rs);
        OneWord(MapToks(f, ts, plain), MapWords(f, args), MapRedirs(f, rs));
    }
  }

  lemma {:induction false} MapParseExec<W, V>(f: W -> V, ts: seq<Tok<W>>, plain: bool := false)
    ensures ParseExec(MapToks(f, ts, plain)) == MapRes(f, ParseExec(ts), plain)
    decreases |ts|, 1
  {
    MapAt(f, ts, "(", plain);
    if At(ts, "(") {
      MapParseBlock(f, ts, plain);
    } else {
      MapParseRedirs(f, ts, plain);
      match ParseRedirs(ts)
      case Panic =>
      case Ok(rs, rest) => MapParseArgs(f, rest, [], rs, plain);
    }
  }

  lemma {:induction false} MapParseBlock<W, V>(f: W -> V, ts: seq<Tok<W>>, plain: bool := false)
    requires At(ts, "(")
    ensures At(MapToks(f, ts, plain), "(") && ParseBlock(MapToks(f, ts, plain)) == MapRes(f, ParseBlock(ts), plain)
    decreases |ts|, 0
  {
    MapAt(f, ts, "(", plain);
    MapSlice(f, ts, 1, plain);
    MapParseLine(f, ts[1..], plain);
    match ParseLine(ts[1..])
    case Panic =>
    case Ok(c, rest) =>
      MapAt(f, rest, ")", plain);
      if At(rest, ")") {
        MapSlice(f, rest, 1, plain);
        MapParseRedirs(f, rest[1..], plain);
        match ParseRedirs(rest[1..])
        case Panic =>
        case Ok(rs, _) => MapWrap(f, c, rs);
      }
  }

  lemma {:induction false} MapParsePipe<W, V>(f: W -> V, ts: seq<Tok<W>>, plain: bool := false)
    ensures ParsePipe(MapToks(f, ts, plain)) == MapRes(f, ParsePipe(ts), plain)
    decreases |ts|, 2
  {
    MapParseExec(f, ts, plain);
    match ParseExec(ts)
    case Panic =>
    case Ok(c, rest) =>
      MapAt(f, rest, "|", plain);
      if At(rest, "|") {
        MapSlice(f, rest, 1, plain);
        MapParsePipe(f, rest[1..], plain);
      }
  }

  lemma {:induction false} MapBacks<W, V>(f: W -> V, c: Cmd<W>, ts: seq<Tok<W>>, plain: bool := false)
    ensures Backs(MapCmd(f, c), MapToks(f, ts, plain)) == MapRes(f, Backs(c, ts), plain)
    decreases |ts|
  {
    MapAt(f, ts, "&", plain);
    if At(ts, "&") {
      MapSlice(f, ts, 1, plain);
      MapBacks(f, Back(c), ts[1..], plain);
    }
  }

  lemma {:induction false} MapParseLine<W, V>(f: W -> V, ts: seq<Tok<W>>, plain: bool := false)
    ensures ParseLine(MapToks(f, ts, plain)) == MapRes(f, ParseLine(ts), plain)
    decreases |ts|, 4
  {
    MapParsePipe(f, ts, plain);
    match ParsePipe(ts)
    case Panic =>
    case Ok(c0, rest0) =>
      MapBacks(f, c0, rest0, plain);
      var r := Backs(c0, rest0);
      MapAt(f, r.rest, ";", plain);
      if At(r.rest, ";") {
        MapSlice(f, r.rest, 1, plain);
        MapParseLine(f, r.rest[1..], plain);
      }
  }

  // ---------------------------------------------------------------------------------------------
  // Appending

  /** The tokens with > in place of every >>. */
  function Plain<W>(ts: seq<Tok<W>>): (us: seq<Tok<W>>)
    ensures |us| == |ts|
    ensures forall i :: 0 <= i < |ts| ==> us[i] == if ts[i] == Sym('+') then Sym('>') else ts[i]
  {
    seq(|ts|, i requires 0 <= i < |ts| => if ts[i].Sym? && ts[i].c == '+' then Sym('>') else ts[i])
  }

  function Same<W>(): W -> W { w => w }

  lemma PlainIsMap<W>(ts: seq<Tok<W>>)
    ensures MapToks(Same(), ts, true) == Plain(ts)
  {
  }

  lemma {:induction false} SameCmd<W>(c: Cmd<W>)
    ensures MapCmd(Same(), c) == c
    decreases c
  {
    match c
    case Exec(args) => assert MapWords(Same(), args) == args;
    case Redirect(d, _, _) => SameCmd(d);
    case Pipe(a, b) => SameCmd(a); SameCmd(b);
    case List(a, b) => SameCmd(a); SameCmd(b);
    case Back(d) => SameCmd(d);
  }

  /** >> is never anything but >: replacing it everywhere changes neither whether a line parses nor the
      command it parses to. */
  lemma AppendIsOutput<W>(ts: seq<Tok<W>>)
    ensures match ParseLine(ts)
            case Panic => ParseLine(Plain(ts)) == Panic
            case Ok(c, rest) => ParseLine(Plain(ts)) == Ok(c, Plain(rest))
  {
    hide ParseLine, MapToks, Plain;
    MapParseLine(Same(), ts, true);
    PlainIsMap(ts);
    match ParseLine(ts)
    case Panic =>
    case Ok(c, rest) =>
      PlainIsMap(rest);
      SameCmd(c);
  }

  /** Each redirection reads its file exactly when its symbol is <. */
  lemma {:induction false} ReadsIffLess<W>(ts: seq<Tok<W>>, i: nat)
    requires ParseRedirs(ts).Ok? && i < |ParseRedirs(ts).v|
    ensures 2 * i + 1 < |ts| && ts[2 * i].Sym? && ts[2 * i + 1] == Word(ParseRedirs(ts).v[i].file)
    ensures ParseRedirs(ts).v[i].mode == In <==> ts[2 * i] == Sym('<')
    decreases |ts|
  {
    if i > 0 {
      ReadsIffLess(ts[2..], i - 1);
    }
  }

  // ---------------------------------------------------------------------------------------------
  // The words of a parsed line

  lemma {:induction false} LexWords(s: string, i: nat, n: nat)
    requires i <= |s| && n < |Lex(s, i)| && Lex(s, i)[n].Word?
    ensures WordSpan(s, Lex(s, i)[n].w)
    decreases |s| - i
  {
    var j := Skip(s, i);
    var (t, e) := Scan(s, j);
    if n > 0 {
      LexWords(s, e, n - 1);
    }
  }

  /** If two readings leave a command as it is, its words are among those that both leave as they are. */
  lemma Unchanged<W(!new)>(f: W -> W, g: W -> W, c: Cmd<W>, p: W -> bool)
    requires MapCmd(f, c) == c && MapCmd(g, c) == c && forall w :: f(w) == w && g(w) == w ==> p(w)
    ensures AllCmd(c, p)
  {
    match c
    case Exec(args) =>
      forall i | 0 <= i < |args| ensures p(args[i]) {
        assert MapWords(f, args)[i] == f(args[i]) && MapWords(g, args)[i] == g(args[i]);
      }
    case Redirect(d, _, _) => Unchanged(f, g, d, p);
    case Pipe(a, b) => Unchanged(f, g, a, p); Unchanged(f, g, b, p);
    case List(a, b) => Unchanged(f, g, a, p); Unchanged(f, g, b, p);
    case Back(d) => Unchanged(f, g, d, p);
  }

  ghost function IsWord(s: string): Span -> bool { sp => WordSpan(s, sp) }

  /** Every word of the command is a whole word of the line: the parser invents none.  A reading that
      sends every other place elsewhere changes neither the tokens nor, then, the command. */
  lemma ParsedWords(s: string)
    requires ParseLine(Lex(s, 0)).Ok?
    ensures AllCmd(ParseLine(Lex(s, 0)).v, IsWord(s))
  {
    hide Lex, ParseLine;
    var f := (sp: Span) => if WordSpan(s, sp) then sp else Span(0, 0);
    var g := (sp: Span) => if WordSpan(s, sp) then sp else Span(1, 0);
    FixedLine(s, f);
    FixedLine(s, g);
    Unchanged(f, g, ParseLine(Lex(s, 0)).v, IsWord(s));
  }

  lemma FixedLine(s: string, f: Span -> Span)
    requires ParseLine(Lex(s, 0)).Ok? && forall sp :: WordSpan(s, sp) ==> f(sp) == sp
    ensures MapCmd(f, ParseLine(Lex(s, 0)).v) == ParseLine(Lex(s, 0)).v
  {
    hide MapToks, ParseLine, Lex;
    var ts := Lex(s, 0);
    forall n | 0 <= n < |ts| ensures MapToks(f, ts)[n] == ts[n] {
      if ts[n].Word? {
        LexWords(s, 0, n);
      }
    }
    assert MapToks(f, ts) == ts;
    MapParseLine(f, ts);
  }

  // ---------------------------------------------------------------------------------------------
  // Printed text

  /** The text of a place in the line. */
  function Text(s: string, sp: Span): string { if sp.q <= sp.eq <= |s| then s[sp.q..sp.eq] else "" }

  function Reader(s: string): Span -> string { sp => Text(s, sp) }

  function TokText(t: Tok<string>): string {
    match t case Word(w) => w case Sym(c) => if c == '+' then ">>" else [c]
  }

  /** A word that can be written: not empty, of word characters only. */
  ghost predicate GoodWord(w: string) { w != "" && forall k :: 0 <= k < |w| ==> WordChar(w[k]) }

  ghost predicate GoodTok(t: Tok<string>) {
    match t
    case Word(w) => GoodWord(w)
    case Sym(c) => c == '+' || c in SYMBOLS
  }

  /** The tokens with the spaces `ws` before, between and after them. */
  function Spaced(ts: seq<Tok<string>>, ws: seq<string>): string
    requires |ws| == |ts| + 1
  {
    if ts == [] then ws[0] else ws[0] + (TokText(ts[0]) + Spaced(ts[1..], ws[1..]))
  }

  /** Written without a space between them the two would not be read as two. */
  predicate Glues(t: Tok<string>, u: Tok<string>) {
    (t.Word? && u.Word?) || (t == Sym('>') && u.Sym? && u.c in ">+")
  }

  predicate AllWhite(w: string) { forall k :: 0 <= k < |w| ==> White(w[k]) }

  /** Any spaces will do, also none where two tokens do not run into one. */
  predicate SpacesOk(ts: seq<Tok<string>>, ws: seq<string>) {
    && |ws| == |ts| + 1 && (forall k :: 0 <= k < |ws| ==> AllWhite(ws[k]))
    && forall k :: 1 <= k < |ts| && Glues(ts[k - 1], ts[k]) ==> ws[k] != ""
  }

  lemma {:induction false} SkipTo(s: string, i: nat, j: nat)
    requires i <= j <= |s| && (forall k :: i <= k < j ==> White(s[k])) && (j < |s| ==> !White(s[j]))
    ensures Skip(s, i) == j
    decreases j - i
  {
    if i < j {
      SkipTo(s, i + 1, j);
    }
  }

  /** What follows a token does not belong to it. */
  predicate Stops(t: Tok<string>, post: string) {
    post == "" || ((t.Word? ==> !WordChar(post[0])) && (t == Sym('>') ==> post[0] != '>'))
  }

  /** One token at the end of `pre`. */
  lemma ScanToken(pre: string, t: Tok<string>, post: string)
    requires GoodTok(t) && Stops(t, post)
    ensures var s := pre + (TokText(t) + post);
            var i, e := |pre|, |pre| + |TokText(t)|;
            i < e <= |s| && !White(s[i]) && Scan(s, i).1 == e && MapTok(Reader(s), Scan(s, i).0) == t
  {
    var x := TokText(t);
    var s, i, e := pre + (x + post), |pre|, |pre| + |x|;
    assert s[i..e] == x && (e < |s| ==> s[e] == post[0]);
    assert forall k :: 0 <= k < |x| ==> s[i + k] == x[k];
    assert s[i] == x[0];
    if t.Word? {
      assert WordEnd(s, i) == e by {
        assert forall k :: i <= k < e ==> s[k] == x[k - i];
      }
    } else if t.c == '+' {
      assert s[i + 1] == x[1];
    }
  }

  lemma LexToken(s: string, i: nat, j: nat)
    requires i <= j < |s| && Skip(s, i) == j
    ensures Lex(s, i) == [Scan(s, j).0] + Lex(s, Scan(s, j).1)
  {
  }

  /** The text after the first token starts with a space or with the next token. */
  lemma RestStops(ts: seq<Tok<string>>, ws: seq<string>)
    requires ts != [] && SpacesOk(ts, ws) && forall n :: 0 <= n < |ts| ==> GoodTok(ts[n])
    ensures Stops(ts[0], Spaced(ts[1..], ws[1..]))
  {
    var post := Spaced(ts[1..], ws[1..]);
    if ws[1] != "" {
      assert post[0] == ws[1][0] && AllWhite(ws[1]);
    } else if |ts| > 1 {
      var u := ts[1];
      assert post == "" + (TokText(u) + Spaced(ts[1..][1..], ws[1..][1..]));
      assert post[0] == TokText(u)[0] && GoodTok(u) && !Glues(ts[0], u);
    }
  }

  lemma MapCons<W, V>(f: W -> V, t: Tok<W>, ts: seq<Tok<W>>)
    ensures MapToks(f, [t] + ts) == [MapTok(f, t)] + MapToks(f, ts)
  {
    assert ([t] + ts)[1..] == ts;
  }

  lemma Lead(pre: string, w: string)
    requires AllWhite(w)
    ensures forall k :: |pre| <= k < |pre + w| ==> White((pre + w)[k])
  {
    forall k | |pre| <= k < |pre + w| ensures White((pre + w)[k]) {
      assert (pre + w)[k] == w[k - |pre|];
    }
  }

  /** The first token is read, after the spaces before it. */
  lemma FirstToken(pre: string, t: Tok<string>, w: string, post: string) returns (tok: Tok<Span>)
    requires GoodTok(t) && Stops(t, post) && AllWhite(w)
    ensures var s := pre + (w + (TokText(t) + post));
            var e := |pre + w + TokText(t)|;
            && s == pre + w + TokText(t) + post && e <= |s|
            && Lex(s, |pre|) == [tok] + Lex(s, e) && MapTok(Reader(s), tok) == t
  {
    hide TokText, GoodTok, Scan, MapTok, Reader, Lex, Stops, White, AllWhite;
    var pre1, x := pre + w, TokText(t);
    var s := pre1 + (x + post);
    assert s == pre + (w + (x + post)) && s == pre1 + x + post;
    ScanToken(pre1, t, post);
    Lead(pre, w);
    assert forall k :: |pre| <= k < |pre1| ==> s[k] == pre1[k];
    SkipTo(s, |pre|, |pre1|);
    LexToken(s, |pre|, |pre1|);
    tok := Scan(s, |pre1|).0;
  }

  lemma NoToken(pre: string, w: string)
    requires AllWhite(w)
    ensures Lex(pre + w, |pre|) == []
  {
    hide Lex, White, AllWhite;
    Lead(pre, w);
    SkipTo(pre + w, |pre|, |pre + w|);
    LexEnd(pre + w, |pre|);
  }

  /** Tokens written with any spaces between them are read back. */
  lemma {:induction false} LexSpaced(pre: string, ts: seq<Tok<string>>, ws: seq<string>)
    requires SpacesOk(ts, ws) && forall n :: 0 <= n < |ts| ==> GoodTok(ts[n])
    ensures MapToks(Reader(pre + Spaced(ts, ws)), Lex(pre + Spaced(ts, ws), |pre|)) == ts
    decreases |ts|
  {
    hide TokText, GoodTok, MapTok, Reader, Lex, Glues, Stops, AllWhite;
    if ts == [] {
      NoToken(pre, ws[0]);
    } else {
      RestStops(ts, ws);
      SpacesTail(ts, ws);
      var post := Spaced(ts[1..], ws[1..]);
      var tok := FirstToken(pre, ts[0], ws[0], post);
      var pre2 := pre + ws[0] + TokText(ts[0]);
      LexSpaced(pre2, ts[1..], ws[1..]);
      hide MapToks, Spaced, SpacesOk;
      MapCons(Reader(pre2 + post), tok, Lex(pre2 + post, |pre2|));
      assert ts == [ts[0]] + ts[1..];
    }
  }

  lemma SpacesTail(ts: seq<Tok<string>>, ws: seq<string>)
    requires ts != [] && SpacesOk(ts, ws)
    ensures SpacesOk(ts[1..], ws[1..])
  {
    var us, vs := ts[1..], ws[1..];
    forall k | 1 <= k < |us| && Glues(us[k - 1], us[k]) ensures vs[k] != "" {
      assert us[k - 1] == ts[k] && us[k] == ts[k + 1] && vs[k] == ws[k + 1];
    }
  }

  lemma LexEnd(s: string, i: nat)
    requires i <= |s| && Skip(s, i) == |s|
    ensures Lex(s, i) == []
  {
  }

  // ---------------------------------------------------------------------------------------------
  // The round trip over text

  /** parsecmd: a command, or a panic. */
  function Parsed(s: string): (r: Res<Cmd<Span>, Span>) {
    match ParseLine(Lex(s, 0))
    case Panic => Panic
    case Ok(c, rest) => if rest == [] then Ok(c, []) else Panic
  }

  ghost function GoodWords(): string -> bool { w => GoodWord(w) }

  ghost predicate GoodToks(ts: seq<Tok<string>>) { forall n :: 0 <= n < |ts| ==> GoodTok(ts[n]) }

  lemma GoodPrint(t: Cmd<string>, level: nat)
    requires AllCmd(t, GoodWords())
    ensures GoodToks(Print(t, level))
    decreases t
  {
    hide GoodTok;
    GoodSymbols();
    match t
    case Exec(args) => GoodArgs(args);
    case Redirect(c, m, f) =>
      GoodPrint(c, 3);
      GoodRedir(m, f);
    case Pipe(a, b) => GoodPrint(a, 3); GoodPrint(b, 2);
    case List(a, b) => GoodPrint(a, 1); GoodPrint(b, 0);
    case Back(c) => GoodPrint(c, 1);
  }

  lemma GoodRedir(m: Mode, f: string)
    requires GoodWord(f)
    ensures GoodToks(RedirToks([Redir(m, f)]))
  {
    var one := [Redir(m, f)];
    assert one[1..] == [] && RedirToks(one) == [Sym(if m == In then '<' else '>'), Word(f)];
  }

  lemma GoodSymbols()
    ensures forall c :: c in SYMBOLS ==> GoodTok(Sym(c))
    ensures forall c :: c in "<>|;&()" ==> c in SYMBOLS
  {
  }

  lemma {:induction false} WordsAre(args: seq<string>)
    ensures |Words(args)| == |args| && forall n :: 0 <= n < |args| ==> Words(args)[n] == Word(args[n])
  {
    if args != [] {
      WordsAre(args[1..]);
    }
  }

  lemma GoodArgs(args: seq<string>)
    requires forall i :: 0 <= i < |args| ==> GoodWords()(args[i])
    ensures GoodToks(Words(args))
  {
    hide Words, GoodWord;
    WordsAre(args);
    forall n | 0 <= n < |args| ensures GoodTok(Words(args)[n]) {
      assert GoodWords()(args[n]);
    }
  }

  /** Writing any command tree with writable words as text, with any spaces, and parsing the text gives the same tree,
      read off the line, if every command has at most nine words; if not it panics. */
  lemma TextRoundTrip(t: Cmd<string>, ws: seq<string>)
    requires AllCmd(t, GoodWords()) && SpacesOk(Print(t, 0), ws)
    ensures var s := Spaced(Print(t, 0), ws);
            if Fits(t) then Parsed(s).Ok? && MapCmd(Reader(s), Parsed(s).v) == t else Parsed(s) == Panic
  {
    hide Lex, ParseLine, Spaced, MapToks, SpacesOk;
    var ts := Print(t, 0);
    assert |ws| == |ts| + 1 by { SpacesCount(ts, ws); }
    var s := Spaced(ts, ws);
    GoodPrint(t, 0);
    assert "" + s == s;
    LexSpaced("", ts, ws);
    MapParseLine(Reader(s), Lex(s, 0));
    PrintThenParse(t);
  }

  lemma SpacesCount(ts: seq<Tok<string>>, ws: seq<string>)
    requires SpacesOk(ts, ws)
    ensures |ws| == |ts| + 1
  {
  }
}
