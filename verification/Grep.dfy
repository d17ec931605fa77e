/**
 * grep's matcher, as loops and recursion over C strings (a string here ends where its terminating zero
 * would be), against the meaning of a pattern: a sequence of items, each standing for a set of words.
 */
module Grep {

  /** One(c): one character, any if c is '.'.  Star(c): any number of those. */
  datatype Item = One(c: char) | Star(c: char)

  /** `end`: the pattern ends in an anchoring '$'. */
  datatype Pattern = Pattern(items: seq<Item>, end: bool)

  predicate Fits(c: char, x: char) { c == '.' || c == x }

  /** How a pattern reads: a character before '*' is starred, whatever it is; '$' anchors only as the
      last character; every other character stands for itself. */
  function Parse(re: string): Pattern {
    if re == "" then Pattern([], false)
    else if |re| > 1 && re[1] == '*' then
      var p := Parse(re[2..]);
      p.(items := [Star(re[0])] + p.items)
    else if re == "$" then Pattern([], true)
    else
      var p := Parse(re[1..]);
      p.(items := [One(re[0])] + p.items)
  }

  // ---------------------------------------------------------------------------------------------
  // Meaning

  ghost predicate Piece(it: Item, w: string) {
    match it
    case One(c) => |w| == 1 && Fits(c, w[0])
    case Star(c) => forall i :: 0 <= i < |w| ==> Fits(c, w[i])
  }

  function Flatten(ps: seq<string>): string { if ps == [] then "" else ps[0] + Flatten(ps[1..]) }

  ghost predicate Pieces(items: seq<Item>, ps: seq<string>) {
    |ps| == |items| && forall i :: 0 <= i < |ps| ==> Piece(items[i], ps[i])
  }

  /** The word can be cut into one piece for each item. */
  ghost predicate Denotes(items: seq<Item>, w: string) { exists ps :: Pieces(items, ps) && Flatten(ps) == w }

  /** A prefix of the text is in the meaning of the pattern; the whole text if it is anchored. */
  ghost predicate HereSpec(re: string, text: string) {
    exists k :: 0 <= k <= |text| && Denotes(Parse(re).items, text[..k]) && (Parse(re).end ==> k == |text|)
  }

  /** '^' first anchors at the start; otherwise the match may start anywhere, also at the end. */
  ghost predicate MatchSpec(re: string, text: string) {
    if re != "" && re[0] == '^' then HereSpec(re[1..], text)
    else exists j :: 0 <= j <= |text| && HereSpec(re, text[j..])
  }

  // ---------------------------------------------------------------------------------------------
  // The meaning, item by item

  lemma DenotesNothing(w: string)
    ensures Denotes([], w) <==> w == ""
  {
    if w == "" {
      assert Pieces([], []) && Flatten([]) == "";
    }
  }

  /** A word for one item and the rest: it starts with a piece for that item. */
  lemma DenotesCons(it: Item, items: seq<Item>, w: string)
    ensures Denotes([it] + items, w) <==> exists k :: 0 <= k <= |w| && Piece(it, w[..k]) && Denotes(items, w[k..])
  {
    if Denotes([it] + items, w) {
      var k := FirstPiece(it, items, w);
    }
    if k :| 0 <= k <= |w| && Piece(it, w[..k]) && Denotes(items, w[k..]) {
      var ps :| Pieces(items, ps) && Flatten(ps) == w[k..];
      var ps' := [w[..k]] + ps;
      assert ps'[1..] == ps;
      assert Pieces([it] + items, ps') && Flatten(ps') == w;
    }
  }

  lemma FirstPiece(it: Item, items: seq<Item>, w: string) returns (k: nat)
    requires Denotes([it] + items, w)
    ensures k <= |w| && Piece(it, w[..k]) && Denotes(items, w[k..])
  {
    hide Piece;
    var all := [it] + items;
    var ps :| Pieces(all, ps) && Flatten(ps) == w;
    k := |ps[0]|;
    assert w[..k] == ps[0] && w[k..] == Flatten(ps[1..]);
    assert Piece(all[0], ps[0]);
    forall i | 0 <= i < |ps[1..]| ensures Piece(items[i], ps[1..][i]) {
      assert items[i] == all[i + 1] && ps[1..][i] == ps[i + 1];
    }
    assert Pieces(items, ps[1..]);
  }

  /** What follows an item decides: HereSpec of a starred item and the rest. */
  lemma StarSpec(re: string, text: string)
    requires |re| > 1 && re[1] == '*'
    ensures HereSpec(re, text) <==>
            exists i :: 0 <= i <= |text| && Piece(Star(re[0]), text[..i]) && HereSpec(re[2..], text[i..])
  {
    ItemSpec(Star(re[0]), re, re[2..], text);
  }

  lemma OneSpec(re: string, text: string)
    requires re != "" && !(|re| > 1 && re[1] == '*') && re != "$"
    ensures HereSpec(re, text) <==> text != "" && Fits(re[0], text[0]) && HereSpec(re[1..], text[1..])
  {
    ItemSpec(One(re[0]), re, re[1..], text);
    if text != "" && Fits(re[0], text[0]) && HereSpec(re[1..], text[1..]) {
      assert Piece(One(re[0]), text[..1]);
    }
  }

  lemma ItemSpec(it: Item, re: string, rest: string, text: string)
    requires Parse(re).items == [it] + Parse(rest).items && Parse(re).end == Parse(rest).end
    ensures HereSpec(re, text) <==> exists i :: 0 <= i <= |text| && Piece(it, text[..i]) && HereSpec(rest, text[i..])
  {
    hide Parse, Denotes, Piece, HereSpec;
    if HereSpec(re, text) {
      var i := CutItem(it, re, rest, text);
    }
    if i :| 0 <= i <= |text| && Piece(it, text[..i]) && HereSpec(rest, text[i..]) {
      AddItem(it, re, rest, text, i);
    }
  }

  lemma CutItem(it: Item, re: string, rest: string, text: string) returns (i: nat)
    requires Parse(re).items == [it] + Parse(rest).items && Parse(re).end == Parse(rest).end
    requires HereSpec(re, text)
    ensures i <= |text| && Piece(it, text[..i]) && HereSpec(rest, text[i..])
  {
    hide Parse, Denotes, Piece;
    var items, end := Parse(rest).items, Parse(rest).end;
    var k :| 0 <= k <= |text| && Denotes(Parse(re).items, text[..k]) && (end ==> k == |text|);
    i := FirstPiece(it, items, text[..k]);
    CutTwice(text, i, k);
    assert Denotes(items, text[i..][..k - i]);
  }

  lemma CutTwice(text: string, i: nat, k: nat)
    requires i <= k <= |text|
    ensures text[..k][..i] == text[..i] && text[..k][i..] == text[i..][..k - i]
  {
  }

  lemma AddItem(it: Item, re: string, rest: string, text: string, i: nat)
    requires Parse(re).items == [it] + Parse(rest).items && Parse(re).end == Parse(rest).end
    requires i <= |text| && Piece(it, text[..i]) && HereSpec(rest, text[i..])
    ensures HereSpec(re, text)
  {
    hide Parse, Denotes, Piece;
    var items, end := Parse(rest).items, Parse(rest).end;
    var k :| 0 <= k <= |text[i..]| && Denotes(items, text[i..][..k]) && (end ==> k == |text[i..]|);
    var w := text[..i + k];
    CutTwice(text, i, i + k);
    DenotesCons(it, items, w);
    assert Denotes(Parse(re).items, w);
  }

  lemma NothingSpec(text: string)
    ensures HereSpec("", text)
    ensures HereSpec("$", text) <==> text == ""
  {
    DenotesNothing(text[..0]);
    DenotesNothing(text);
    assert text[..|text|] == text;
  }

  // ---------------------------------------------------------------------------------------------
  // The matcher

  /** matchhere. */
  method Matchhere(re: string, text: string) returns (r: bool)
    ensures r <==> HereSpec(re, text)
    decreases |re|, 0
  {
    if re == "" {
      NothingSpec(text);
      return true;
    }
    if |re| > 1 && re[1] == '*' {
      StarSpec(re, text);
      r := Matchstar(re[0], re[2..], text);
      return;
    }
    if re[0] == '$' && |re| == 1 {
      assert re == "$";
      NothingSpec(text);
      return text == "";
    }
    OneSpec(re, text);
    if text != "" && (re[0] == '.' || re[0] == text[0]) {
      r := Matchhere(re[1..], text[1..]);
      return;
    }
    return false;
  }

  /** matchstar. */
  method Matchstar(c: char, re: string, text: string) returns (r: bool)
    ensures r <==> exists i :: 0 <= i <= |text| && Piece(Star(c), text[..i]) && HereSpec(re, text[i..])
    decreases |re|, 1
  {
    var i := 0;
    while true
      invariant 0 <= i <= |text| && Piece(Star(c), text[..i])
      invariant forall j :: 0 <= j < i ==> !HereSpec(re, text[j..])
      decreases |text| - i
    {
      var here := Matchhere(re, text[i..]);
      if here {
        return true;
      }
      if i == |text| || !(text[i] == c || c == '.') {
        break;
      }
      i := i + 1;
    }
    forall j | i < j <= |text| ensures !Piece(Star(c), text[..j]) {
      assert text[..j][i] == text[i];
    }
    return false;
  }

  /** match: sound and complete for every pattern and every text. */
  method Match(re: string, text: string) returns (r: bool)
    ensures r <==> MatchSpec(re, text)
  {
    if re != "" && re[0] == '^' {
      r := Matchhere(re[1..], text);
      return;
    }
    var i := 0;
    while true
      invariant 0 <= i <= |text|
      invariant forall j :: 0 <= j < i ==> !HereSpec(re, text[j..])
      decreases |text| - i
    {
      var here := Matchhere(re, text[i..]);
      if here {
        return true;
      }
      if i == |text| {
        break;
      }
      i := i + 1;
    }
    return false;
  }

  /** How a pattern is read, for every first character and every rest: before '*' it is starred, whatever it
      is; a '$' with nothing after it is the anchor; anything else stands for itself. */
  lemma ReadsAs(c: char, rest: string)
    ensures Parse([c, '*'] + rest) == var p := Parse(rest); p.(items := [Star(c)] + p.items)
    ensures rest == "" && c == '$' ==> Parse([c] + rest) == Pattern([], true)
    ensures (rest == "" && c != '$') || (rest != "" && rest[0] != '*') ==>
              Parse([c] + rest) == var p := Parse(rest); p.(items := [One(c)] + p.items)
  {
    assert ([c, '*'] + rest)[2..] == rest && ([c] + rest)[1..] == rest;
    assert rest == "" ==> [c] + rest == [c];
  }
}
