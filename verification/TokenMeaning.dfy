/**
 What the tokens of a source are, without the lexer: what the trivia setting leaves out, that
 the tokens and the white space between them make up the source, and how a token of each type
 is written.
 */
module TokenMeaning {
  import opened CodeUnits
  import opened LispLexer

  // ---------------------------------------------------------------- trivia

  /** The tokens that are neither comments nor strings, in order. */
  function WithoutTrivia(tokens: seq<Token>): seq<Token> {
    if tokens == [] then []
    else (if tokens[0].kind == Comment || tokens[0].kind == StringToken then [] else [tokens[0]]) + WithoutTrivia(tokens[1..])
  }

  lemma {:induction false} TriviaLeftOut(ls: seq<Lexeme>, at: nat)
    ensures Tokens(ls, at, false) == WithoutTrivia(Tokens(ls, at, true))
  {
    if ls != [] {
      var rest := Tokens(ls[1..], at + |ls[0].text|, true);
      TriviaLeftOut(ls[1..], at + |ls[0].text|);
      if ls[0].kind == Space {
        assert [] + rest == rest;
      } else {
        assert ([TokenOf(ls[0], at, true)[0]] + rest)[1..] == rest;
      }
    }
  }

  // ---------------------------------------------------------------- coverage

  predicate Blank(t: Text) {
    forall i | 0 <= i < |t| :: IsSpace(t[i])
  }

  /** From `at` on the source consists of these tokens, each at its place, and of white space around them. */
  predicate Covers(tokens: seq<Token>, source: Text, at: nat)
    requires at <= |source|
  {
    if tokens == [] then Blank(source[at..])
    else
      && at <= tokens[0].start < tokens[0].end <= |source|
      && Blank(source[at..tokens[0].start])
      && tokens[0].value == source[tokens[0].start..tokens[0].end]
      && Covers(tokens[1..], source, tokens[0].end)
  }

  lemma {:induction false} CoversBehindSpace(tokens: seq<Token>, source: Text, at: nat)
    requires at < |source| && IsSpace(source[at]) && Covers(tokens, source, at + 1)
    ensures Covers(tokens, source, at)
  {
    if tokens == [] {
      assert source[at..] == [source[at]] + source[at + 1..];
    } else {
      assert source[at..tokens[0].start] == [source[at]] + source[at + 1..tokens[0].start];
    }
  }

  lemma {:induction false} CoversOneMore(token: Token, rest: seq<Token>, source: Text)
    requires token.start < token.end <= |source| && token.value == source[token.start..token.end] && Covers(rest, source, token.end)
    ensures Covers([token] + rest, source, token.start)
  {
    assert ([token] + rest)[1..] == rest;
  }

  // ---------------------------------------------------------------- how tokens are written

  /** A sign, digits with an optional fraction, or a fraction alone: parts that give the numeral `t`. */
  predicate IsNumeralOf(t: Text, sign: Text, whole: Text, fraction: Text) {
    && sign in {[], [PLUS], [MINUS]} && AllDigits(whole) && AllDigits(fraction)
    && ((t == sign + whole && whole != []) || (t == sign + whole + [DOT] + fraction && (whole != [] || fraction != [])))
  }

  lemma {:induction false} DigitRunOf(digits: Text, x: Text)
    requires AllDigits(digits) && (x == [] || !IsDigit(x[0]))
    ensures DigitRun(digits + x) == |digits|
  {
    if digits == [] {
      assert digits + x == x;
    } else {
      assert (digits + x)[1..] == digits[1..] + x;
      DigitRunOf(digits[1..], x);
    }
  }

  /** The numeral pattern by its parts. */
  lemma {:induction false} NumeralMeans(t: Text)
    ensures IsNumeral(t) <==> exists sign, whole, fraction :: IsNumeralOf(t, sign, whole, fraction)
  {
    if IsNumeral(t) {
      var sign, whole, fraction := NumeralParts(t);
      assert IsNumeralOf(t, sign, whole, fraction);
    }
    forall sign, whole, fraction | IsNumeralOf(t, sign, whole, fraction) ensures IsNumeral(t) {
      NumeralOfParts(t, sign, whole, fraction);
    }
  }

  lemma {:induction false} BodyParts(body: Text, n: nat) returns (whole: Text, fraction: Text)
    requires n == DigitRun(body)
    requires if n == 0 then |body| >= 2 && body[0] == DOT && AllDigits(body[1..])
             else body[n..] == [] || (body[n] == DOT && AllDigits(body[n + 1..]))
    ensures AllDigits(whole) && AllDigits(fraction)
    ensures (body == whole && whole != []) || (body == whole + [DOT] + fraction && (whole != [] || fraction != []))
  {
    DigitRunUnits(body);
    whole, fraction := body[..n], if n < |body| then body[n + 1..] else [];
    if n < |body| {
      assert body == whole + [body[n]] + fraction;
    } else {
      assert body == whole;
    }
  }

  lemma {:induction false} NumeralParts(t: Text) returns (sign: Text, whole: Text, fraction: Text)
    requires IsNumeral(t)
    ensures IsNumeralOf(t, sign, whole, fraction)
  {
    var signed := t != [] && (t[0] == PLUS || t[0] == MINUS);
    var body := if signed then t[1..] else t;
    sign := if signed then [t[0]] else [];
    assert t == sign + body;
    whole, fraction := BodyParts(body, DigitRun(body));
    SignInFront(sign, whole, fraction);
  }

  lemma {:induction false} SignInFront(sign: Text, whole: Text, fraction: Text)
    ensures sign + whole + [DOT] + fraction == sign + (whole + [DOT] + fraction)
  {}

  lemma {:induction false} UnsignedNumeral(body: Text, whole: Text, fraction: Text)
    requires AllDigits(whole) && AllDigits(fraction)
    requires (body == whole && whole != []) || (body == whole + [DOT] + fraction && (whole != [] || fraction != []))
    ensures var n := DigitRun(body);
            && n == |whole| && body != [] && body[0] != PLUS && body[0] != MINUS
            && (if n == 0 then |body| >= 2 && body[0] == DOT && AllDigits(body[1..])
                else body[n..] == [] || (body[n] == DOT && AllDigits(body[n + 1..])))
  {
    if body == whole {
      DigitRunOf(whole, []);
      assert whole + [] == whole;
    } else {
      DigitRunOf(whole, [DOT] + fraction);
      assert body == whole + ([DOT] + fraction);
      assert body[|whole|] == DOT && body[|whole| + 1..] == fraction;
    }
  }

  lemma {:induction false} NumeralOfParts(t: Text, sign: Text, whole: Text, fraction: Text)
    requires IsNumeralOf(t, sign, whole, fraction)
    ensures IsNumeral(t)
  {
    var body := t[|sign|..];
    assert t == sign + body;
    if t != sign + whole {
      assert sign + whole + [DOT] + fraction == sign + (whole + [DOT] + fraction);
      assert body == whole + [DOT] + fraction;
    } else {
      assert body == whole;
    }
    UnsignedNumeral(body, whole, fraction);
    if sign == [] { assert t == body; } else { assert t[0] == PLUS || t[0] == MINUS; assert t[1..] == body; }
  }

  /** The units that end an atom, apart from white space. */
  function Separators(): Text {
    Ascii("()[]{}'`,\";")
  }

  /** Neither white space nor a separator, nor the opening of a block comment anywhere. */
  predicate IsAtom(t: Text) {
    && t != [] && forall i | 0 <= i < |t| ::
         !IsSpace(t[i]) && t[i] !in Separators() && !(i + 1 < |t| && t[i] == HASH && t[i + 1] == BAR)
  }

  /** What the type of a token says about its text. */
  ghost predicate Written(token: Token) {
    var t := token.value;
    match token.kind
    case Comment => (Ascii(";") <= t && NEWLINE !in t) || Ascii("#|") <= t
    case StringToken => Ascii("\"") <= t
    case ReaderDiscard => t == Ascii("#_")
    case ReaderToken => t == Ascii(",@") || t == Ascii("#'")
    case DelimiterToken => |t| == 1 && t[0] in Ascii("()[]{}'`,")
    case NumberToken => IsAtom(t) && exists sign, whole, fraction :: IsNumeralOf(t, sign, whole, fraction)
    case SymbolToken => IsAtom(t) && !exists sign, whole, fraction :: IsNumeralOf(t, sign, whole, fraction)
  }

  /** A line comment goes on to the end of its line, and an atom to the next separator. */
  predicate EndsAt(token: Token, behind: Text) {
    || behind == []
    || match token.kind
       case Comment => Ascii(";") <= token.value ==> behind[0] == NEWLINE
       case NumberToken => IsSpace(behind[0]) || behind[0] in Separators() || Ascii("#|") <= behind
       case SymbolToken => IsSpace(behind[0]) || behind[0] in Separators() || Ascii("#|") <= behind
       case _ => true
  }

  lemma {:induction false} LineUnits(t: Text)
    ensures NEWLINE !in t[..LineLength(t)] && (LineLength(t) < |t| ==> t[LineLength(t)] == NEWLINE)
  {
    if LineLength(t) > 0 {
      LineUnits(t[1..]);
      assert t[..LineLength(t)] == [t[0]] + t[1..][..LineLength(t) - 1];
    }
  }

  lemma {:induction false} SeparatorUnits(u: CodeUnit)
    ensures u in Separators() <==> IsDelimiter(u)
    ensures u in Ascii("()[]{}'`,") <==> IsDelimiter(u) && u != QUOTE && u != SEMICOLON
  {
    var all, some := Separators(), Ascii("()[]{}'`,");
    assert all == [LPAREN, RPAREN, LBRACKET, RBRACKET, LBRACE, RBRACE, APOSTROPHE, BACKQUOTE, COMMA, QUOTE, SEMICOLON];
    assert some == [LPAREN, RPAREN, LBRACKET, RBRACKET, LBRACE, RBRACE, APOSTROPHE, BACKQUOTE, COMMA];
  }

  lemma {:induction false} AtomUnits(t: Text, n: nat)
    requires n <= AtomLength(t)
    ensures forall i | 0 <= i < n :: IsConstituent(t[i]) && !(i + 1 < n && t[i] == HASH && t[i + 1] == BAR)
    ensures AtomLength(t) < |t| ==> var b := t[AtomLength(t)..]; !IsConstituent(b[0]) || Begins(b, HASH, BAR)
  {
    if AtomLength(t) > 0 {
      AtomUnits(t[1..], if n == 0 then 0 else n - 1);
      assert t[AtomLength(t)..] == t[1..][AtomLength(t) - 1..];
      forall i | 0 <= i < n ensures IsConstituent(t[i]) && !(i + 1 < n && t[i] == HASH && t[i + 1] == BAR) {
        if i > 0 { assert t[i] == t[1..][i - 1]; }
      }
    }
  }

  lemma {:induction false} AtomWritten(t: Text)
    requires t != [] && AtomLength(t) > 0
    ensures IsAtom(t[..AtomLength(t)])
    ensures var b := t[AtomLength(t)..]; b == [] || IsSpace(b[0]) || b[0] in Separators() || Ascii("#|") <= b
  {
    var n := AtomLength(t);
    AtomUnits(t, n);
    forall i | 0 <= i < n ensures t[i] !in Separators() { SeparatorUnits(t[i]); }
    if n < |t| { SeparatorUnits(t[n]); }
  }

  /** A lexeme as the token it leaves. */
  lemma {:induction false} HeadWritten(t: Text, at: nat)
    requires t != [] && Head(t).kind != Space
    ensures var x := Head(t);
            var token := Token(TypeOf(x.kind), x.text, at, at + |x.text|);
            Written(token) && EndsAt(token, t[|x.text|..])
  {
    var x := Head(t);
    match x.kind {
      case LineComment => LineUnits(t);
      case Delimiter => SeparatorUnits(t[0]);
      case Number =>
        AtomWritten(t);
        NumeralMeans(x.text);
      case Symbol =>
        AtomWritten(t);
        NumeralMeans(x.text);
      case _ =>
    }
  }

  ghost predicate WellWritten(token: Token, source: Text) {
    Written(token) && token.end <= |source| && EndsAt(token, source[token.end..])
  }

  /** What one lexeme leaves: nothing for white space, and one well written token otherwise. */
  ghost predicate Leaves(source: Text, at: nat, next: nat, mine: seq<Token>) {
    && at < next <= |source|
    && if mine == [] then next == at + 1 && IsSpace(source[at])
       else |mine| == 1 && mine[0] == Token(mine[0].kind, source[at..next], at, next) && WellWritten(mine[0], source)
  }

  lemma {:induction false} LexemeLeaves(source: Text, at: nat, x: Lexeme)
    requires at < |source| && x == Head(source[at..])
    ensures Leaves(source, at, at + |x.text|, TokenOf(x, at, true))
  {
    var next := at + |x.text|;
    assert x.text == source[at..next] && source[at..][|x.text|..] == source[next..];
    if x.kind != Space { HeadWritten(source[at..], at); }
  }

  lemma {:induction false} LexCut(t: Text) returns (x: Lexeme, behind: Text)
    requires t != []
    ensures x == Head(t) && behind == t[|x.text|..] && Lex(t) == [x] + Lex(behind)
  {
    x := Head(t);
    behind := t[|x.text|..];
  }

  lemma {:induction false} TokensCut(all: seq<Lexeme>, x: Lexeme, ls: seq<Lexeme>, at: nat, next: nat)
    requires all == [x] + ls && next == at + |x.text|
    ensures Tokens(all, at, true) == TokenOf(x, at, true) + Tokens(ls, next, true)
  {
    assert all[0] == x && all[1..] == ls;
  }

  lemma {:induction false} LexHead(source: Text, at: nat) returns (x: Lexeme, next: nat, ls: seq<Lexeme>)
    requires at < |source|
    ensures next == at + |x.text| && Leaves(source, at, next, TokenOf(x, at, true))
    ensures ls == Lex(source[next..]) && Lex(source[at..]) == [x] + ls
  {
    var behind;
    x, behind := LexCut(source[at..]);
    LexemeLeaves(source, at, x);
    next := at + |x.text|;
    assert behind == source[next..];
    ls := Lex(behind);
  }

  lemma {:induction false} LexStep(source: Text, at: nat, all: seq<Lexeme>) returns (mine: seq<Token>, next: nat, rest: seq<Token>)
    requires at < |source| && all == Lex(source[at..])
    ensures Leaves(source, at, next, mine) && rest == Tokens(Lex(source[next..]), next, true)
    ensures Tokens(all, at, true) == mine + rest
  {
    var x, ls;
    x, next, ls := LexHead(source, at);
    TokensCut(all, x, ls, at, next);
    mine, rest := TokenOf(x, at, true), Tokens(ls, next, true);
  }

  /** The tokens with trivia leave nothing but white space uncovered. */
  lemma {:induction false} LexCovers(source: Text, at: nat)
    requires at <= |source|
    ensures Covers(Tokens(Lex(source[at..]), at, true), source, at)
    decreases |source| - at
  {
    if at < |source| {
      var mine, next, rest := LexStep(source, at, Lex(source[at..]));
      LexCovers(source, next);
      if mine == [] {
        assert mine + rest == rest;
        CoversBehindSpace(rest, source, at);
      } else {
        assert mine == [mine[0]];
        CoversOneMore(mine[0], rest, source);
      }
    }
  }

  /** Every token is written as its type says, and no comment or atom is cut short. */
  lemma {:induction false} LexWritten(source: Text, at: nat)
    requires at <= |source|
    ensures forall token | token in Tokens(Lex(source[at..]), at, true) :: WellWritten(token, source)
    decreases |source| - at
  {
    if at < |source| {
      var mine, next, rest := LexStep(source, at, Lex(source[at..]));
      LexWritten(source, next);
    }
  }

  /** The tokens of a source with trivia: with the white space between them they are the source, and each is written as its type says. */
  lemma {:induction false} TokensCover(source: Text)
    ensures Covers(Tokens(Lex(source), 0, true), source, 0)
    ensures forall token | token in Tokens(Lex(source), 0, true) :: WellWritten(token, source)
  {
    assert source[0..] == source;
    LexCovers(source, 0);
    LexWritten(source, 0);
  }

  // ---------------------------------------------------------------- diagnostics

  /** The token a diagnostic is about; what is not terminated reaches the end of the source. */
  predicate IsAbout(d: Diagnostic, token: Token, end: nat) {
    d.offset == token.start &&
    match d
    case UnterminatedBlockComment(_) => token.kind == Comment && Ascii("#|") <= token.value && token.end == end
    case UnterminatedString(_) => token.kind == StringToken && token.end == end
    case ReaderDiscardFound(_) => token.kind == ReaderDiscard
  }

  /** Every diagnostic is about a token, and every discarding reader macro has one. */
  ghost predicate Explained(found: seq<Diagnostic>, tokens: seq<Token>, end: nat) {
    && (forall d | d in found :: exists token | token in tokens :: IsAbout(d, token, end))
    && forall token | token in tokens && token.kind == ReaderDiscard :: ReaderDiscardFound(token.start) in found
  }

  lemma {:induction false} HeadDiagnosed(source: Text, at: nat, x: Lexeme)
    requires at < |source| && x == Head(source[at..])
    ensures Explained(DiagnosticOf(x, at), TokenOf(x, at, true), |source|)
  {
    assert Ascii("#|") == [HASH, BAR];
    if DiagnosticOf(x, at) != [] {
      var token := TokenOf(x, at, true)[0];
      assert IsAbout(DiagnosticOf(x, at)[0], token, |source|) && token in TokenOf(x, at, true);
    }
  }

  lemma {:induction false} ExplainedConcat(here: seq<Diagnostic>, mine: seq<Token>, later: seq<Diagnostic>, rest: seq<Token>, end: nat)
    requires Explained(here, mine, end) && Explained(later, rest, end)
    ensures Explained(here + later, mine + rest, end)
  {
    forall d | d in here + later ensures exists token | token in mine + rest :: IsAbout(d, token, end) {
      if d in here {
        var token :| token in mine && IsAbout(d, token, end);
        assert token in mine + rest;
      } else {
        var token :| token in rest && IsAbout(d, token, end);
        assert token in mine + rest;
      }
    }
  }

  lemma {:induction false} DiagnosticsMean(source: Text, at: nat)
    requires at <= |source|
    ensures Explained(Diagnostics(Lex(source[at..]), at), Tokens(Lex(source[at..]), at, true), |source|)
    decreases |source| - at
  {
    if at < |source| {
      var x, behind := LexCut(source[at..]);
      var next := at + |x.text|;
      assert behind == source[next..];
      DiagnosticsMean(source, next);
      HeadDiagnosed(source, at, x);
      ExplainedConcat(DiagnosticOf(x, at), TokenOf(x, at, true), Diagnostics(Lex(behind), next), Tokens(Lex(behind), next, true), |source|);
      TokensCut(Lex(source[at..]), x, Lex(behind), at, next);
      DiagnosticsCut(Lex(source[at..]), x, Lex(behind), at, next);
    }
  }

  lemma {:induction false} DiagnosticsCut(all: seq<Lexeme>, x: Lexeme, ls: seq<Lexeme>, at: nat, next: nat)
    requires all == [x] + ls && next == at + |x.text|
    ensures Diagnostics(all, at) == DiagnosticOf(x, at) + Diagnostics(ls, next)
  {
    assert all[0] == x && all[1..] == ls;
  }
}
