/**
 The scanner's loops, proved against the lexeme-by-lexeme meaning of a text.
 */
module LispScanner {
  import opened CodeUnits
  import opened LispLexer
  import opened TokenMeaning

  /** Moves past a block comment that opens at `start`, counting nested openings. */
  method SkipBlockComment(text: Text, start: nat) returns (end: nat, closed: bool)
    requires start + 2 <= |text|
    ensures start + 2 <= end <= |text|
    ensures (end - start - 2, closed) == BlockLength(text[start + 2..], 1)
  {
    var depth := 1;
    var i := start + 2;
    while i < |text| && depth > 0
      invariant start + 2 <= i <= |text| && depth >= 0
      invariant var r := BlockLength(text[i..], depth);
                BlockLength(text[start + 2..], 1) == (i - start - 2 + r.0, r.1)
      decreases |text| - i
    {
      assert text[i..][1..] == text[i + 1..];
      if Begins(text[i..], HASH, BAR) {
        assert text[i..][2..] == text[i + 2..];
        depth := depth + 1; i := i + 2;
      } else if Begins(text[i..], BAR, HASH) {
        assert text[i..][2..] == text[i + 2..];
        depth := depth - 1; i := i + 2;
      } else {
        i := i + 1;
      }
    }
    end, closed := i, depth == 0;
  }

  method SkipLineComment(text: Text, start: nat) returns (end: nat)
    requires start <= |text|
    ensures end == start + LineLength(text[start..])
  {
    end := start;
    while end < |text| && text[end] != NEWLINE
      invariant start <= end <= |text|
      invariant start + LineLength(text[start..]) == end + LineLength(text[end..])
    {
      assert text[end..][1..] == text[end + 1..];
      end := end + 1;
    }
  }

  /** Moves past a string whose opening quote is at `start`. */
  method SkipString(text: Text, start: nat) returns (end: nat, closed: bool)
    requires start < |text|
    ensures start < end <= |text|
    ensures (end - start - 1, closed) == StringLength(text[start + 1..])
  {
    end, closed := start + 1, false;
    while end < |text|
      invariant start < end <= |text| && !closed
      invariant var r := StringLength(text[end..]);
                StringLength(text[start + 1..]) == (end - start - 1 + r.0, r.1)
    {
      assert text[end..][1..] == text[end + 1..];
      if text[end] == BACKSLASH {
        var step := if |text| - end >= 2 then 2 else 1;
        assert text[end..][step..] == text[end + step..];
        end := end + step;
      } else if text[end] == QUOTE {
        end, closed := end + 1, true;
        break;
      } else {
        end := end + 1;
      }
    }
  }

  method SkipAtom(text: Text, start: nat) returns (end: nat)
    requires start <= |text|
    ensures end == start + AtomLength(text[start..])
  {
    end := start;
    while end < |text| && !IsSpace(text[end]) && !IsDelimiter(text[end])
      invariant start <= end <= |text|
      invariant start + AtomLength(text[start..]) == end + AtomLength(text[end..])
    {
      assert text[end..][1..] == text[end + 1..];
      if Begins(text[end..], HASH, BAR) { break; }
      end := end + 1;
    }
  }

  /** The scan reads the lexemes of the source off one by one. */
  lemma {:induction false} LexAdvances(source: Text, i: nat, x: Lexeme, end: nat)
    requires i < end <= |source| && x.text == source[i..end] && Head(source[i..]) == x
    ensures Lex(source[i..]) == [x] + Lex(source[end..])
  {
    assert source[i..][|x.text|..] == source[end..];
  }

  lemma {:induction false} OutputAdvances(x: Lexeme, rest: seq<Lexeme>, rest': seq<Lexeme>, i: nat, end: nat, trivia: bool,
                                          tokens: seq<Token>, diagnostics: seq<Diagnostic>,
                                          allTokens: seq<Token>, allDiagnostics: seq<Diagnostic>)
    requires rest == [x] + rest' && end == i + |x.text|
    requires tokens + Tokens(rest, i, trivia) == allTokens
    requires diagnostics + Diagnostics(rest, i) == allDiagnostics
    ensures (tokens + TokenOf(x, i, trivia)) + Tokens(rest', end, trivia) == allTokens
    ensures (diagnostics + DiagnosticOf(x, i)) + Diagnostics(rest', end) == allDiagnostics
  {
    assert rest[1..] == rest';
  }

  /** One pass of the main loop: the lexeme at `i`, recognised in the scanner's own order of tests. */
  method ScanOne(source: Text, i: nat) returns (kind: Kind, end: nat, closed: bool)
    requires i < |source|
    ensures i < end <= |source|
    ensures Head(source[i..]) == Lexeme(kind, source[i..end], closed)
  {
    var ch := source[i];
    ghost var t := source[i..];
    if IsSpace(ch) {
      kind, end, closed := Space, i + 1, true;
    } else if ch == SEMICOLON {
      end := SkipLineComment(source, i);
      kind, closed := LineComment, true;
    } else if Begins(source[i..], HASH, BAR) {
      end, closed := SkipBlockComment(source, i);
      kind := BlockComment;
      assert t[2..] == source[i + 2..];
    } else if ch == QUOTE {
      end, closed := SkipString(source, i);
      kind := Str;
      assert t[1..] == source[i + 1..];
    } else if Begins(source[i..], HASH, UNDERSCORE) {
      kind, end, closed := Discard, i + 2, true;
    } else if Begins(source[i..], COMMA, AT) {
      kind, end, closed := Reader, i + 2, true;
    } else if Begins(source[i..], HASH, APOSTROPHE) {
      kind, end, closed := Reader, i + 2, true;
    } else if IsDelimiter(ch) {
      kind, end, closed := Delimiter, i + 1, true;
    } else {
      end := SkipAtom(source, i);
      kind := if IsNumeral(source[i..end]) then Number else Symbol;
      closed := true;
    }
    assert t[..end - i] == source[i..end];
  }

  /** The pushes of one pass of the main loop. */
  method Emit(source: Text, i: nat, kind: Kind, end: nat, closed: bool, includeTrivia: bool,
              tokens: seq<Token>, diagnostics: seq<Diagnostic>)
    returns (tokens': seq<Token>, diagnostics': seq<Diagnostic>)
    requires i < end <= |source|
    ensures tokens' == tokens + TokenOf(Lexeme(kind, source[i..end], closed), i, includeTrivia)
    ensures diagnostics' == diagnostics + DiagnosticOf(Lexeme(kind, source[i..end], closed), i)
  {
    tokens', diagnostics' := tokens, diagnostics;
    if kind == BlockComment && !closed { diagnostics' := diagnostics' + [UnterminatedBlockComment(i)]; }
    if kind == Str && !closed { diagnostics' := diagnostics' + [UnterminatedString(i)]; }
    if kind == Discard { diagnostics' := diagnostics' + [ReaderDiscardFound(i)]; }
    if kind != Space && (includeTrivia || !IsTrivia(kind)) {
      tokens' := tokens' + [Token(TypeOf(kind), source[i..end], i, end)];
    }
  }

  /** scanLisp: the tokens and diagnostics of the whole source, in order. */
  method ScanLisp(source: Text, includeTrivia: bool) returns (tokens: seq<Token>, diagnostics: seq<Diagnostic>)
    ensures tokens == Tokens(Lex(source), 0, includeTrivia)
    ensures tokens == if includeTrivia then Tokens(Lex(source), 0, true) else WithoutTrivia(Tokens(Lex(source), 0, true))
    ensures diagnostics == Diagnostics(Lex(source), 0)
  {
    TriviaLeftOut(Lex(source), 0);
    tokens, diagnostics := [], [];
    var i := 0;
    ghost var rest := Lex(source);
    ghost var allTokens, allDiagnostics := Tokens(rest, 0, includeTrivia), Diagnostics(rest, 0);
    assert source[0..] == source;
    while i < |source|
      invariant i <= |source| && rest == Lex(source[i..])
      invariant tokens + Tokens(rest, i, includeTrivia) == allTokens
      invariant diagnostics + Diagnostics(rest, i) == allDiagnostics
    {
      var kind, end, closed := ScanOne(source, i);
      ghost var x, rest' := Lexeme(kind, source[i..end], closed), Lex(source[end..]);
      LexAdvances(source, i, x, end);
      OutputAdvances(x, rest, rest', i, end, includeTrivia, tokens, diagnostics, allTokens, allDiagnostics);
      tokens, diagnostics := Emit(source, i, kind, end, closed, includeTrivia, tokens, diagnostics);
      i, rest := end, rest';
    }
  }

  /** One-based line and zero-based column behind a text. */
  function PositionAfter(t: Text): (nat, nat) {
    if t == [] then (1, 0)
    else
      var (line, column) := PositionAfter(t[..|t| - 1]);
      if t[|t| - 1] == NEWLINE then (line + 1, 0) else (line, column + 1)
  }

  method PositionFor(text: Text, offset: nat) returns (line: nat, column: nat)
    requires offset <= |text|
    ensures (line, column) == PositionAfter(text[..offset])
  {
    line, column := 1, 0;
    for i := 0 to offset
      invariant (line, column) == PositionAfter(text[..i])
    {
      assert text[..i + 1][..i] == text[..i];
      if text[i] == NEWLINE { line, column := line + 1, 0; } else { column := column + 1; }
    }
  }

  /** The line counts the newlines. */
  lemma {:induction false} LineMeans(t: Text)
    ensures PositionAfter(t).0 == 1 + multiset(t)[NEWLINE]
  {
    if t != [] {
      LineMeans(t[..|t| - 1]);
      assert t == t[..|t| - 1] + [t[|t| - 1]];
    }
  }

  /** The column counts what stands behind the last newline. */
  lemma {:induction false} ColumnMeans(t: Text)
    ensures var column := PositionAfter(t).1;
            && column <= |t| && (column < |t| ==> t[|t| - column - 1] == NEWLINE)
            && forall i | |t| - column <= i < |t| :: t[i] != NEWLINE
  {
    if t != [] { ColumnMeans(t[..|t| - 1]); }
  }
}
