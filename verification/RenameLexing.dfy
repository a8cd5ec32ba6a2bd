/**
 Renaming a symbol and lexing again. Replacing the text of some lexemes may change how
 the neighbours are cut, because the lexer looks two units ahead. This module finds the
 three ways that can happen and proves there is no fourth.
 */
module RenameLexing {
  import opened CodeUnits
  import opened LispLexer

  datatype Renaming = Renaming(from: Text, to: Text)

  /** What validateLispSymbol accepts. */
  predicate ValidSymbol(name: Text) {
    && 0 < |name| <= 256
    && (forall i | 0 <= i < |name| :: IsConstituent(name[i]))
    && !IsNumeral(name)
  }

  /** A valid symbol that describeLispSymbol does not turn away for the `|` in it. */
  predicate ValidTarget(name: Text) {
    ValidSymbol(name) && BAR !in name
  }

  predicate IsOccurrence(x: Lexeme, ren: Renaming) {
    x.kind == Symbol && x.text == ren.from
  }

  function RenameOne(x: Lexeme, ren: Renaming): Lexeme {
    if IsOccurrence(x, ren) then x.(text := ren.to) else x
  }

  function Rename(ls: seq<Lexeme>, ren: Renaming): (rs: seq<Lexeme>)
    ensures |rs| == |ls|
    ensures forall k | 0 <= k < |ls| :: rs[k] == RenameOne(ls[k], ren)
  {
    if ls == [] then [] else [RenameOne(ls[0], ren)] + Rename(ls[1..], ren)
  }

  /** Constituents throughout, and no block comment opening among them. */
  predicate Solid(a: Text) {
    forall i | 0 <= i < |a| :: IsConstituent(a[i]) && !(i + 1 < |a| && a[i] == HASH && a[i + 1] == BAR)
  }

  /** An atom can end in front of `r`. */
  predicate AtEdge(r: Text) {
    r == [] || !IsConstituent(r[0]) || Begins(r, HASH, BAR)
  }

  lemma {:induction false} AtomLengthExact(a: Text, r: Text)
    requires Solid(a) && AtEdge(r)
    ensures AtomLength(a + r) == |a|
  {
    if a == [] {
      assert a + r == r;
    } else {
      AtomLengthExact(a[1..], r);
      assert (a + r)[1..] == a[1..] + r;
    }
  }

  lemma {:induction false} AtomLengthSplits(t: Text)
    ensures Solid(t[..AtomLength(t)]) && AtEdge(t[AtomLength(t)..])
  {
    var n := AtomLength(t);
    if n > 0 {
      AtomLengthSplits(t[1..]);
      assert t[1..][..n - 1] == t[1..n] && t[1..][n - 1..] == t[n..];
      forall i | 0 <= i < n ensures IsConstituent(t[i]) && !(i + 1 < n && t[i] == HASH && t[i + 1] == BAR) {
        if i > 0 { assert t[1..n][i - 1] == t[i]; }
      }
    }
  }

  lemma {:induction false} LineLengthExact(c: Text, r: Text)
    requires NEWLINE !in c && (r == [] || r[0] == NEWLINE)
    ensures LineLength(c + r) == |c|
  {
    if c == [] {
      assert c + r == r;
    } else {
      LineLengthExact(c[1..], r);
      assert (c + r)[1..] == c[1..] + r;
    }
  }

  lemma {:induction false} LineLengthSplits(t: Text)
    ensures NEWLINE !in t[..LineLength(t)]
    ensures t[LineLength(t)..] == [] || t[LineLength(t)..][0] == NEWLINE
  {
    if t != [] && t[0] != NEWLINE {
      LineLengthSplits(t[1..]);
      var n := LineLength(t);
      assert t[..n] == [t[0]] + t[1..][..n - 1] && t[1..][n - 1..] == t[n..];
    }
  }

  lemma {:induction false} ClosingTakesTwo(t: Text, depth: nat)
    requires depth > 0 && BlockLength(t, depth).1
    ensures BlockLength(t, depth).0 >= 2
    decreases |t|
  {
    if !Begins(t, HASH, BAR) && !Begins(t, BAR, HASH) { ClosingTakesTwo(t[1..], depth); }
  }

  /** Where a closed block comment ends depends on nothing behind it. */
  lemma {:induction false} BlockLengthKept(c: Text, r: Text, r': Text, depth: nat)
    requires BlockLength(c + r, depth) == (|c|, true)
    ensures BlockLength(c + r', depth) == (|c|, true)
    decreases |c|
  {
    if c == [] {
      assert c + r == r && c + r' == r';
    } else {
      var u, v := c + r, c + r';
      ClosingTakesTwo(u, depth);
      assert u[0] == v[0] == c[0] && u[1] == v[1] == c[1];
      var step := if Begins(u, HASH, BAR) || Begins(u, BAR, HASH) then 2 else 1;
      var d := if Begins(u, HASH, BAR) then depth + 1 else if Begins(u, BAR, HASH) then depth - 1 else depth;
      assert u[step..] == c[step..] + r && v[step..] == c[step..] + r';
      BlockLengthKept(c[step..], r, r', d);
    }
  }

  lemma {:induction false} StringLengthKept(c: Text, r: Text, r': Text)
    requires StringLength(c + r) == (|c|, true)
    ensures StringLength(c + r') == (|c|, true)
    decreases |c|
  {
    if c != [] && c[0] != QUOTE {
      var step := if c[0] == BACKSLASH && |c + r| >= 2 then 2 else 1;
      if step <= |c| {
        assert (c + r)[step..] == c[step..] + r && (c + r')[step..] == c[step..] + r';
        StringLengthKept(c[step..], r, r');
      }
    }
  }

  lemma {:induction false} LineCommentKept(x: Lexeme, r: Text, r': Text)
    requires x.text + r != [] && Head(x.text + r) == x && x.kind == LineComment
    requires r' == [] || r'[0] == NEWLINE
    ensures Head(x.text + r') == x
  {
    LineLengthSplits(x.text + r);
    LineLengthExact(x.text, r');
    assert (x.text + r)[..|x.text|] == (x.text + r')[..|x.text|] == x.text;
  }

  lemma {:induction false} BlockCommentKept(x: Lexeme, r: Text, r': Text)
    requires x.text + r != [] && Head(x.text + r) == x && x.kind == BlockComment && x.closed
    ensures Head(x.text + r') == x
  {
    var t, t' := x.text + r, x.text + r';
    assert Begins(t, HASH, BAR) && !IsSpace(t[0]) && t[0] != SEMICOLON;
    var c := x.text[2..];
    assert t[2..] == c + r && t'[2..] == c + r';
    assert BlockLength(c + r, 1) == (|c|, true);
    BlockLengthKept(c, r, r', 1);
    assert t'[0] == t[0] && t'[1] == t[1] && t'[..|c| + 2] == x.text;
  }

  lemma {:induction false} StringKept(x: Lexeme, r: Text, r': Text)
    requires x.text + r != [] && Head(x.text + r) == x && x.kind == Str && x.closed
    ensures Head(x.text + r') == x
  {
    var t, t' := x.text + r, x.text + r';
    assert t[0] == QUOTE;
    var c := x.text[1..];
    assert t[1..] == c + r && t'[1..] == c + r';
    assert StringLength(c + r) == (|c|, true);
    StringLengthKept(c, r, r');
    assert t'[0] == t[0] && t'[..|c| + 1] == x.text;
  }

  /** The lexeme `x` in front of `r'` is cut as it was in front of `r`. */
  lemma {:induction false} HeadKept(x: Lexeme, r: Text, r': Text)
    requires x.text + r != [] && Head(x.text + r) == x
    requires x.closed || r' == []
    requires x.kind == LineComment ==> r' == [] || r'[0] == NEWLINE
    requires x.kind in {Number, Symbol} ==> AtEdge(r') && (x.text == [HASH] && r' != [] ==> r'[0] != APOSTROPHE)
    requires x.kind == Delimiter && x.text == [COMMA] && r' != [] ==> r'[0] != AT
    ensures x.text + r' != [] && Head(x.text + r') == x
  {
    if !x.closed {
      assert x.text + r == x.text == x.text + r';
    } else if x.kind == LineComment {
      LineCommentKept(x, r, r');
    } else if x.kind == BlockComment {
      BlockCommentKept(x, r, r');
    } else if x.kind == Str {
      StringKept(x, r, r');
    } else if x.kind in {Number, Symbol} {
      AtomKept(x, r, r');
    } else {
      assert (x.text + r')[..|x.text|] == x.text;
    }
  }

  predicate StartsAtom(t: Text) {
    t != [] && IsConstituent(t[0]) && !Begins(t, HASH, BAR) && !Begins(t, HASH, UNDERSCORE) && !Begins(t, HASH, APOSTROPHE)
  }

  lemma {:induction false} AtomHead(t: Text)
    requires t != []
    ensures Head(t).kind in {Number, Symbol} <==> StartsAtom(t)
    ensures StartsAtom(t) ==> Head(t) == var text := t[..AtomLength(t)]; Lexeme(AtomKind(text), text, true)
  {}

  lemma {:induction false} AtomKept(x: Lexeme, r: Text, r': Text)
    requires x.text + r != [] && Head(x.text + r) == x && x.kind in {Number, Symbol}
    requires AtEdge(r') && (x.text == [HASH] && r' != [] ==> r'[0] != APOSTROPHE)
    ensures x.text + r' != [] && Head(x.text + r') == x
  {
    var t, t' := x.text + r, x.text + r';
    AtomHead(t);
    assert Solid(x.text) by { AtomLengthSplits(t); }
    AtomLengthExact(x.text, r');
    assert t'[0] == t[0];
    if |x.text| >= 2 { assert t[1] == t'[1] == x.text[1]; }
    AtomHead(t');
    assert t'[..|x.text|] == x.text;
  }

  /** Lexemes in a row that the lexer itself would cut this way. */
  ghost predicate WellCut(ls: seq<Lexeme>) {
    ls == [] || (ls[0].text != [] && Head(Flatten(ls)) == ls[0] && WellCut(ls[1..]))
  }

  lemma {:induction false} LexIsWellCut(t: Text)
    ensures WellCut(Lex(t))
    decreases |t|
  {
    if t != [] {
      FlattenLex(t);
      LexIsWellCut(t[|Head(t).text|..]);
    }
  }

  lemma {:induction false} LexStep(t: Text, x: Lexeme)
    requires t != [] && Head(t) == x
    ensures Lex(t) == [x] + Lex(t[|x.text|..])
  {}

  lemma {:induction false} Cons(x: Lexeme, rest: seq<Lexeme>, t: Text)
    requires t == x.text + Flatten(rest) && t != [] && Head(t) == x
    ensures Lex(t) == [x] + Lex(Flatten(rest))
  {
    LexStep(t, x);
    assert t[|x.text|..] == Flatten(rest);
  }

  /** There is only one way to cut a text. */
  lemma {:induction false} WellCutIsLex(ls: seq<Lexeme>)
    requires WellCut(ls)
    ensures Lex(Flatten(ls)) == ls
  {
    if ls != [] {
      WellCutIsLex(ls[1..]);
      Cons(ls[0], ls[1..], Flatten(ls));
      assert ls == [ls[0]] + ls[1..];
    }
  }

  /** The first unit behind a lexeme list, unchanged by a renaming unless an occurrence comes first. */
  lemma {:induction false} FirstUnitKept(ls: seq<Lexeme>, ren: Renaming)
    requires WellCut(ls)
    requires ls != [] ==> !IsOccurrence(ls[0], ren)
    ensures Flatten(Rename(ls, ren)) == [] <==> Flatten(ls) == []
    ensures Flatten(ls) != [] ==> Flatten(Rename(ls, ren))[0] == Flatten(ls)[0]
    ensures AtEdge(Flatten(ls)) ==> AtEdge(Flatten(Rename(ls, ren)))
  {
    if ls != [] {
      assert Rename(ls, ren)[0] == ls[0];
      assert Flatten(ls) == ls[0].text + Flatten(ls[1..]);
    }
  }

  /** An occurrence never stands where an atom has just ended. */
  lemma {:induction false} NoOccurrenceAtEdge(ls: seq<Lexeme>, ren: Renaming)
    requires WellCut(ls) && ls != [] && AtEdge(Flatten(ls))
    ensures !IsOccurrence(ls[0], ren)
  {}

  predicate TailHazard(x: Lexeme, rest: seq<Lexeme>, ren: Renaming) {
    && IsOccurrence(x, ren)
    && ren.to == [HASH]
    && rest != [] && rest[0].text != [] && rest[0].text[0] == APOSTROPHE
  }

  predicate CommaHazard(x: Lexeme, rest: seq<Lexeme>, ren: Renaming) {
    && x.kind == Delimiter && x.text == [COMMA]
    && rest != [] && IsOccurrence(rest[0], ren)
    && ren.to != [] && ren.to[0] == AT
  }

  /** The renamed lexeme would be swallowed by a two-unit reader token. */
  predicate HeadHazard(ls: seq<Lexeme>, ren: Renaming)
    requires ls != []
  {
    || (IsOccurrence(ls[0], ren) && Begins(ren.to, HASH, UNDERSCORE))
    || TailHazard(ls[0], ls[1..], ren)
    || CommaHazard(ls[0], ls[1..], ren)
  }

  predicate Hazard(ls: seq<Lexeme>, ren: Renaming) {
    ls != [] && (HeadHazard(ls, ren) || Hazard(ls[1..], ren))
  }

  lemma {:induction false} SymbolHead(name: Text, r: Text)
    requires ValidTarget(name) && AtEdge(r)
    ensures name + r != []
    ensures !Begins(name, HASH, UNDERSCORE) && !(name == [HASH] && r != [] && r[0] == APOSTROPHE)
            ==> Head(name + r) == Lexeme(Symbol, name, true)
    ensures Begins(name, HASH, UNDERSCORE) ==> Head(name + r).kind == Discard
    ensures name == [HASH] && r != [] && r[0] == APOSTROPHE ==> Head(name + r).kind == Reader
  {
    AtomLengthExact(name, r);
    var t := name + r;
    assert t[..|name|] == name && t[0] == name[0];
    if |name| >= 2 { assert t[1] == name[1]; }
  }

  /** What lies behind an atom is an edge; what lies behind a line comment is a newline or nothing. */
  lemma {:induction false} BehindLexeme(x: Lexeme, r: Text)
    requires x.text != [] && Head(x.text + r) == x
    ensures x.kind in {Number, Symbol} ==> AtEdge(r)
    ensures x.kind == LineComment ==> r == [] || r[0] == NEWLINE
    ensures x.kind == Delimiter && x.text == [COMMA] && r != [] ==> r[0] != AT
    ensures x.kind in {Number, Symbol} && x.text == [HASH] && r != [] ==> r[0] != APOSTROPHE
    ensures !x.closed ==> r == []
  {
    var t := x.text + r;
    assert t[|x.text|..] == r;
    AtomLengthSplits(t);
    LineLengthSplits(t);
  }

  /** One lexeme: without a hazard the renamed text is cut there as before. */
  lemma {:induction false} HeadAfterRename(ls: seq<Lexeme>, ren: Renaming)
    requires WellCut(ls) && ls != [] && ValidTarget(ren.to)
    ensures Flatten(Rename(ls, ren)) != []
    ensures !HeadHazard(ls, ren) ==> Head(Flatten(Rename(ls, ren))) == RenameOne(ls[0], ren)
    ensures HeadHazard(ls, ren) ==> Head(Flatten(Rename(ls, ren))).kind in {Discard, Reader}
    ensures HeadHazard(ls, ren) ==> ls[0].kind in {Symbol, Delimiter}
  {
    var x, rest := ls[0], ls[1..];
    var r, r' := Flatten(rest), Flatten(Rename(rest, ren));
    BehindLexeme(x, r);
    assert Rename(ls, ren)[1..] == Rename(rest, ren);
    assert Flatten(Rename(ls, ren)) == RenameOne(x, ren).text + r';
    if rest != [] { assert r[0] == rest[0].text[0]; }
    if x.kind in {Number, Symbol} {
      if rest != [] { NoOccurrenceAtEdge(rest, ren); }
      FirstUnitKept(rest, ren);
      if IsOccurrence(x, ren) { SymbolHead(ren.to, r'); } else { HeadKept(x, r, r'); }
    } else if rest != [] && IsOccurrence(rest[0], ren) {
      assert r'[0] == ren.to[0];
      if CommaHazard(x, rest, ren) {
        assert (x.text + r')[..2] == [COMMA, AT];
      } else {
        HeadKept(x, r, r');
      }
    } else {
      FirstUnitKept(rest, ren);
      HeadKept(x, r, r');
    }
  }

  /** Without hazards the renamed text is cut into exactly the renamed lexemes. */
  lemma {:induction false} RenameKeepsCut(ls: seq<Lexeme>, ren: Renaming)
    requires WellCut(ls) && ValidTarget(ren.to) && !Hazard(ls, ren)
    ensures WellCut(Rename(ls, ren))
  {
    if ls != [] {
      RenameKeepsCut(ls[1..], ren);
      HeadAfterRename(ls, ren);
      assert Rename(ls, ren)[1..] == Rename(ls[1..], ren);
    }
  }

  lemma {:induction false} DifferBehind<T>(front: seq<T>, a: seq<T>, b: seq<T>)
    requires a != b
    ensures front + a != front + b
  {
    assert a == (front + a)[|front|..] && b == (front + b)[|front|..];
  }

  lemma {:induction false} TokensInFront(x: Lexeme, ls: seq<Lexeme>, at: nat, trivia: bool)
    ensures Tokens([x] + ls, at, trivia) == TokenOf(x, at, trivia) + Tokens(ls, at + |x.text|, trivia)
  {
    assert ([x] + ls)[1..] == ls;
  }

  lemma {:induction false} SameHeadDifferentTokens(x: Lexeme, a: seq<Lexeme>, b: seq<Lexeme>, at: nat, next: nat, trivia: bool)
    requires next == at + |x.text| && Tokens(a, next, trivia) != Tokens(b, next, trivia)
    ensures Tokens([x] + a, at, trivia) != Tokens([x] + b, at, trivia)
  {
    TokensInFront(x, a, at, trivia);
    TokensInFront(x, b, at, trivia);
    DifferBehind(TokenOf(x, at, trivia), Tokens(a, at + |x.text|, trivia), Tokens(b, at + |x.text|, trivia));
  }

  lemma {:induction false} ReaderHeadBreaksTokens(t: Text, rs: seq<Lexeme>, at: nat, trivia: bool)
    requires t != [] && Head(t).kind in {Discard, Reader}
    requires rs != [] && rs[0].kind in {Symbol, Delimiter}
    ensures Tokens(Lex(t), at, trivia) != Tokens(rs, at, trivia)
  {
    LexStep(t, Head(t));
    assert Tokens(Lex(t), at, trivia)[0].kind in {ReaderDiscard, ReaderToken};
    assert Tokens(rs, at, trivia)[0].kind in {SymbolToken, DelimiterToken};
  }

  lemma {:induction false} TailBreaksTokens(x: Lexeme, rest: seq<Lexeme>, behind: Text, t: Text, at: nat, next: nat, trivia: bool)
    requires behind == Flatten(rest) && t == x.text + behind && t != [] && Head(t) == x && next == at + |x.text|
    requires Tokens(Lex(behind), next, trivia) != Tokens(rest, next, trivia)
    ensures Tokens(Lex(t), at, trivia) != Tokens([x] + rest, at, trivia)
  {
    var lexed := Lex(behind);
    SameHeadDifferentTokens(x, lexed, rest, at, next, trivia);
    assert Lex(t) == [x] + lexed by { Cons(x, rest, t); }
  }

  predicate MisreadFirst(rs: seq<Lexeme>) {
    && rs != [] && Flatten(rs) != []
    && Head(Flatten(rs)).kind in {Discard, Reader} && rs[0].kind in {Symbol, Delimiter}
  }

  predicate CutFirst(rs: seq<Lexeme>) {
    rs != [] && Flatten(rs) != [] && Head(Flatten(rs)) == rs[0]
  }

  /** The text of these lexemes is cut as they are up to some symbol or delimiter, which becomes a reader token. */
  predicate Misread(rs: seq<Lexeme>) {
    MisreadFirst(rs) || (CutFirst(rs) && Misread(rs[1..]))
  }

  lemma {:induction false} MisreadBreaksTokens(rs: seq<Lexeme>, t: Text, at: nat, trivia: bool)
    requires Misread(rs) && t == Flatten(rs)
    ensures Tokens(Lex(t), at, trivia) != Tokens(rs, at, trivia)
    decreases |rs|
  {
    if MisreadFirst(rs) {
      ReaderHeadBreaksTokens(t, rs, at, trivia);
    } else {
      var rest, behind, next := rs[1..], Flatten(rs[1..]), at + |rs[0].text|;
      MisreadBreaksTokens(rest, behind, next, trivia);
      TailBreaksTokens(rs[0], rest, behind, t, at, next, trivia);
      assert [rs[0]] + rest == rs;
    }
  }

  lemma {:induction false} HazardMisreads(ls: seq<Lexeme>, ren: Renaming)
    requires WellCut(ls) && ValidTarget(ren.to) && Hazard(ls, ren)
    ensures Misread(Rename(ls, ren))
    decreases |ls|
  {
    var rs := Rename(ls, ren);
    HeadAfterRename(ls, ren);
    assert rs[0] == RenameOne(ls[0], ren) && rs[0].kind == ls[0].kind;
    if HeadHazard(ls, ren) {
      assert MisreadFirst(rs);
    } else {
      assert CutFirst(rs);
      HazardMisreads(ls[1..], ren);
      assert rs[1..] == Rename(ls[1..], ren);
    }
  }

  /** With a hazard the token list of the renamed text is not the one of the renamed lexemes. */
  lemma {:induction false} HazardBreaksTokens(ls: seq<Lexeme>, ren: Renaming, at: nat, trivia: bool)
    requires WellCut(ls) && ValidTarget(ren.to) && Hazard(ls, ren)
    ensures Tokens(Lex(Flatten(Rename(ls, ren))), at, trivia) != Tokens(Rename(ls, ren), at, trivia)
  {
    HazardMisreads(ls, ren);
    MisreadBreaksTokens(Rename(ls, ren), Flatten(Rename(ls, ren)), at, trivia);
  }
}
