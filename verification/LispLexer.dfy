/**
 What the scanner means. A text is cut into lexemes from the left; each lexeme is
 decided by the units that follow, never by what came before. Tokens and diagnostics
 are read off the lexemes, with offsets counted along the way.
 */
module LispLexer {
  import opened CodeUnits

  datatype Kind =
    | Space | LineComment | BlockComment | Str | Discard | Reader | Delimiter | Number | Symbol

  /** `closed` is false only for a string or block comment that runs to the end of the text. */
  datatype Lexeme = Lexeme(kind: Kind, text: Text, closed: bool)

  predicate IsDelimiter(u: CodeUnit) {
    || u == LPAREN || u == RPAREN || u == LBRACKET || u == RBRACKET || u == LBRACE || u == RBRACE
    || u == APOSTROPHE || u == BACKQUOTE || u == COMMA || u == QUOTE || u == SEMICOLON
  }

  predicate IsConstituent(u: CodeUnit) {
    !IsSpace(u) && !IsDelimiter(u)
  }

  /** The numeral pattern: an optional sign, then digits with an optional fraction, or a fraction alone. */
  predicate IsNumeral(t: Text) {
    var body := if t != [] && (t[0] == PLUS || t[0] == MINUS) then t[1..] else t;
    var n := DigitRun(body);
    if n == 0 then |body| >= 2 && body[0] == DOT && AllDigits(body[1..])
    else body[n..] == [] || (body[n] == DOT && AllDigits(body[n + 1..]))
  }

  /** How far a line comment reaches: up to the newline, which is not part of it. */
  function LineLength(t: Text): (n: nat)
    ensures n <= |t|
  {
    if t == [] || t[0] == NEWLINE then 0 else 1 + LineLength(t[1..])
  }

  /** How much of `t` belongs to a block comment that is `depth` levels deep, and whether it closes. */
  function BlockLength(t: Text, depth: nat): (r: (nat, bool))
    ensures r.0 <= |t| && (!r.1 ==> r.0 == |t|)
    decreases |t|
  {
    if depth == 0 then (0, true)
    else if t == [] then (0, false)
    else if Begins(t, HASH, BAR) then var r := BlockLength(t[2..], depth + 1); (r.0 + 2, r.1)
    else if Begins(t, BAR, HASH) then var r := BlockLength(t[2..], depth - 1); (r.0 + 2, r.1)
    else var r := BlockLength(t[1..], depth); (r.0 + 1, r.1)
  }

  /** How much of `t`, which follows an opening quote, belongs to the string, and whether it closes. */
  function StringLength(t: Text): (r: (nat, bool))
    ensures r.0 <= |t| && (!r.1 ==> r.0 == |t|)
  {
    if t == [] then (0, false)
    else if t[0] == BACKSLASH then
      var step := if |t| >= 2 then 2 else 1;
      var r := StringLength(t[step..]); (r.0 + step, r.1)
    else if t[0] == QUOTE then (1, true)
    else var r := StringLength(t[1..]); (r.0 + 1, r.1)
  }

  /** How far an atom reaches: constituents, but not the opening of a block comment. */
  function AtomLength(t: Text): (n: nat)
    ensures n <= |t|
  {
    if t == [] || !IsConstituent(t[0]) || Begins(t, HASH, BAR) then 0 else 1 + AtomLength(t[1..])
  }

  function AtomKind(t: Text): Kind {
    if IsNumeral(t) then Number else Symbol
  }

  /** The first lexeme of a non-empty text. */
  function Head(t: Text): (x: Lexeme)
    requires t != []
    ensures x.text != [] && x.text <= t
    ensures !x.closed ==> x.text == t
  {
    if IsSpace(t[0]) then Lexeme(Space, t[..1], true)
    else if t[0] == SEMICOLON then Lexeme(LineComment, t[..LineLength(t)], true)
    else if Begins(t, HASH, BAR) then
      var r := BlockLength(t[2..], 1); Lexeme(BlockComment, t[..r.0 + 2], r.1)
    else if t[0] == QUOTE then
      var r := StringLength(t[1..]); Lexeme(Str, t[..r.0 + 1], r.1)
    else if Begins(t, HASH, UNDERSCORE) then Lexeme(Discard, t[..2], true)
    else if Begins(t, COMMA, AT) || Begins(t, HASH, APOSTROPHE) then Lexeme(Reader, t[..2], true)
    else if IsDelimiter(t[0]) then Lexeme(Delimiter, t[..1], true)
    else var text := t[..AtomLength(t)]; Lexeme(AtomKind(text), text, true)
  }

  function Lex(t: Text): (ls: seq<Lexeme>)
    decreases |t|
  {
    if t == [] then [] else var x := Head(t); [x] + Lex(t[|x.text|..])
  }

  function Flatten(ls: seq<Lexeme>): Text {
    if ls == [] then [] else ls[0].text + Flatten(ls[1..])
  }

  /** Lexing loses nothing: the lexemes put side by side are the text again. */
  lemma {:induction false} FlattenLex(t: Text)
    ensures Flatten(Lex(t)) == t
    decreases |t|
  {
    if t != [] {
      var x := Head(t);
      FlattenLex(t[|x.text|..]);
      assert x.text + t[|x.text|..] == t;
    }
  }

  datatype TokenType =
    | Comment | StringToken | ReaderDiscard | ReaderToken | DelimiterToken | NumberToken | SymbolToken

  datatype Token = Token(kind: TokenType, value: Text, start: nat, end: nat)

  datatype Diagnostic =
    | UnterminatedBlockComment(offset: nat)
    | UnterminatedString(offset: nat)
    | ReaderDiscardFound(offset: nat)

  function TypeOf(kind: Kind): TokenType
    requires kind != Space
  {
    match kind
    case LineComment => Comment
    case BlockComment => Comment
    case Str => StringToken
    case Discard => ReaderDiscard
    case Reader => ReaderToken
    case Delimiter => DelimiterToken
    case Number => NumberToken
    case Symbol => SymbolToken
  }

  predicate IsTrivia(kind: Kind) {
    kind == LineComment || kind == BlockComment || kind == Str
  }

  /** The token a lexeme at offset `at` leaves behind; strings and comments only when trivia is asked for. */
  function TokenOf(x: Lexeme, at: nat, trivia: bool): seq<Token> {
    if x.kind == Space || (!trivia && IsTrivia(x.kind)) then []
    else [Token(TypeOf(x.kind), x.text, at, at + |x.text|)]
  }

  function DiagnosticOf(x: Lexeme, at: nat): seq<Diagnostic> {
    if x.kind == BlockComment && !x.closed then [UnterminatedBlockComment(at)]
    else if x.kind == Str && !x.closed then [UnterminatedString(at)]
    else if x.kind == Discard then [ReaderDiscardFound(at)]
    else []
  }

  function Tokens(ls: seq<Lexeme>, at: nat, trivia: bool): seq<Token> {
    if ls == [] then []
    else TokenOf(ls[0], at, trivia) + Tokens(ls[1..], at + |ls[0].text|, trivia)
  }

  function Diagnostics(ls: seq<Lexeme>, at: nat): seq<Diagnostic> {
    if ls == [] then []
    else DiagnosticOf(ls[0], at) + Diagnostics(ls[1..], at + |ls[0].text|)
  }
}
