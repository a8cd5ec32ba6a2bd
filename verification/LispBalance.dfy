/**
 The bracket checker of the refactoring package: scan, then match the bracket tokens.
 */
module LispBalance {
  import opened BracketPartners
  import opened BracketWords
  import opened CodeUnits
  import opened LispLexer
  import opened LispScanner

  /** The brackets among the tokens. */
  function Brackets(tokens: seq<Token>): Text {
    if tokens == [] then []
    else BracketOf(tokens[0]) + Brackets(tokens[1..])
  }

  predicate IsBracketToken(t: Token) {
    t.kind == DelimiterToken && |t.value| == 1 && IsBracket(t.value[0])
  }

  datatype BracketDiagnostic =
    | UnmatchedClosing(offset: nat, actual: CodeUnit)
    | MismatchedClosing(offset: nat, actual: CodeUnit, openingOffset: nat)
    | UnclosedOpening(offset: nat, opening: CodeUnit)

  function Openers(stack: seq<Token>): Text
    requires AllOpeners(stack)
  {
    seq(|stack|, i requires 0 <= i < |stack| => stack[i].value[0])
  }

  predicate AllOpeners(stack: seq<Token>) {
    forall i | 0 <= i < |stack| :: |stack[i].value| == 1 && IsOpener(stack[i].value[0])
  }

  /** What a token adds to the brackets. */
  function BracketOf(t: Token): Text {
    if IsBracketToken(t) then t.value else []
  }

  // ---------------------------------------------------------------- which brackets are named

  /** The bracket a token is, and a line end for other tokens. */
  ghost function Shapes(tokens: seq<Token>): (w: Text)
    ensures |w| == |tokens|
  {
    seq(|tokens|, i requires 0 <= i < |tokens| => if IsBracketToken(tokens[i]) then tokens[i].value[0] else NEWLINE)
  }

  /** A closer is named when it has no partner, or with its partner when their shapes differ. */
  ghost function SaidOfCloser(tokens: seq<Token>, i: nat): seq<BracketDiagnostic>
    requires i < |tokens|
  {
    var w := Shapes(tokens);
    if !IsCloser(w[i]) then []
    else if !HasPartner(w, i) then [UnmatchedClosing(tokens[i].start, w[i])]
    else
      var j: nat :| Partners(w, j, i);
      if Pairs(w[j], w[i]) then [] else [MismatchedClosing(tokens[i].start, w[i], tokens[j].start)]
  }

  ghost function SaidOfClosers(tokens: seq<Token>, n: nat): seq<BracketDiagnostic>
    requires n <= |tokens|
  {
    if n == 0 then [] else SaidOfClosers(tokens, n - 1) + SaidOfCloser(tokens, n - 1)
  }

  /** The openers that are never closed, the last first. */
  ghost function SaidOfOpeners(tokens: seq<Token>): seq<BracketDiagnostic> {
    var w := Shapes(tokens);
    var places := LastFirst(w, |w|);
    seq(|places|, k requires 0 <= k < |places| => UnclosedOpening(tokens[places[k]].start, w[places[k]]))
  }

  /** The stack holds the tokens that are open. */
  ghost predicate Holds(stack: seq<Token>, open: seq<nat>, tokens: seq<Token>, i: nat) {
    && i <= |tokens| && |open| == |stack| && AreOpen(Shapes(tokens), open, i)
    && forall k | 0 <= k < |stack| :: open[k] < i && stack[k] == tokens[open[k]]
  }

  /** The stack and the finding after one token. */
  ghost predicate Turned(token: Token, stack: seq<Token>, stack': seq<Token>, found: seq<BracketDiagnostic>) {
    if !IsBracketToken(token) then stack' == stack && found == []
    else if IsOpener(token.value[0]) then stack' == stack + [token] && found == []
    else if stack == [] then stack' == [] && found == [UnmatchedClosing(token.start, token.value[0])]
    else
      var top := stack[|stack| - 1];
      && stack' == stack[..|stack| - 1] && |top.value| == 1
      && found == if Pairs(top.value[0], token.value[0]) then [] else [MismatchedClosing(token.start, token.value[0], top.start)]
  }

  lemma {:induction false} TurnedHolds(tokens: seq<Token>, i: nat, stack: seq<Token>, open: seq<nat>,
                                       stack': seq<Token>, found: seq<BracketDiagnostic>) returns (open': seq<nat>)
    requires i < |tokens| && AllOpeners(stack) && Holds(stack, open, tokens, i) && Turned(tokens[i], stack, stack', found)
    ensures Holds(stack', open', tokens, i + 1) && found == SaidOfCloser(tokens, i)
  {
    var w := Shapes(tokens);
    if !IsBracket(w[i]) {
      open' := open;
      OthersStay(w, open, i);
    } else if IsOpener(w[i]) {
      open' := open + [i];
      OneMoreOpen(w, open, i);
    } else if stack == [] {
      open' := open;
      NoneOpen(w, open, i);
    } else {
      open' := open[..|open| - 1];
      LastIsClosed(w, open, i);
      CloserSays(tokens, i, open[|open| - 1]);
    }
  }

  lemma {:induction false} CloserSays(tokens: seq<Token>, i: nat, j: nat)
    requires i < |tokens| && Partners(Shapes(tokens), j, i)
    ensures var w := Shapes(tokens);
            SaidOfCloser(tokens, i) == if Pairs(w[j], w[i]) then [] else [MismatchedClosing(tokens[i].start, w[i], tokens[j].start)]
  {
    var w := Shapes(tokens);
    assert HasPartner(w, i);
    forall k: nat | Partners(w, k, i) ensures k == j { OnePartner(w, j, k, i); }
  }

  // ---------------------------------------------------------------- the loops

  /** One token: nothing is found exactly when matching can go on with the new stack. */
  method MatchToken(token: Token, stack: seq<Token>, ghost rest: Text) returns (stack': seq<Token>, found: seq<BracketDiagnostic>)
    requires AllOpeners(stack)
    ensures AllOpeners(stack') && Turned(token, stack, stack', found)
    ensures Matches(BracketOf(token) + rest, Openers(stack)) <==> found == [] && Matches(rest, Openers(stack'))
  {
    stack', found := stack, [];
    if !IsBracketToken(token) {
      assert [] + rest == rest;
    } else if IsOpener(token.value[0]) {
      MatchOpener(token, rest, stack);
      stack' := stack + [token];
    } else if stack == [] {
      found := [UnmatchedClosing(token.start, token.value[0])];
    } else {
      var top := stack[|stack| - 1];
      MatchCloser(token, rest, stack);
      if !Pairs(top.value[0], token.value[0]) { found := [MismatchedClosing(token.start, token.value[0], top.start)]; }
      stack' := stack[..|stack| - 1];
    }
  }

  lemma {:induction false} BehindToken(tokens: seq<Token>, i: nat) returns (rest: Text)
    requires i < |tokens|
    ensures rest == Brackets(tokens[i + 1..]) && Brackets(tokens[i..]) == BracketOf(tokens[i]) + rest
  {
    rest := Brackets(tokens[i + 1..]);
    assert tokens[i..][1..] == tokens[i + 1..];
  }

  /** The openers left on the stack, the last first. */
  method NameOpeners(stack: seq<Token>, ghost tokens: seq<Token>, ghost open: seq<nat>) returns (found: seq<BracketDiagnostic>)
    requires AllOpeners(stack) && Holds(stack, open, tokens, |tokens|)
    ensures found == SaidOfOpeners(tokens)
    ensures found == [] <==> stack == []
  {
    found := [];
    ghost var said := SaidOfOpeners(tokens);
    LastFirstIs(Shapes(tokens), open);
    for k := |stack| downto 0
      invariant |found| == |stack| - k && found == said[..|found|]
    {
      found := found + [UnclosedOpening(stack[k].start, stack[k].value[0])];
    }
  }

  /**
   Every closer without a partner or with one of another shape is named, in order, and then every
   opener that is never closed, the last first; nothing is named exactly when the brackets match.
   */
  method MatchTokens(tokens: seq<Token>) returns (found: seq<BracketDiagnostic>)
    ensures found == SaidOfClosers(tokens, |tokens|) + SaidOfOpeners(tokens)
    ensures found == [] <==> Matches(Brackets(tokens), [])
  {
    found := [];
    var stack: seq<Token> := [];
    ghost var w, open: seq<nat> := Brackets(tokens), [];
    assert tokens[0..] == tokens;
    for i := 0 to |tokens|
      invariant AllOpeners(stack) && Holds(stack, open, tokens, i) && found == SaidOfClosers(tokens, i)
      invariant Matches(w, []) ==> found == []
      invariant found == [] ==> (Matches(w, []) <==> Matches(Brackets(tokens[i..]), Openers(stack)))
    {
      ghost var rest := BehindToken(tokens, i);
      var stack', more := MatchToken(tokens[i], stack, rest);
      open := TurnedHolds(tokens, i, stack, open, stack', more);
      stack, found := stack', found + more;
    }
    assert tokens[|tokens|..] == [];
    var unclosed := NameOpeners(stack, tokens, open);
    found := found + unclosed;
  }

  /** Balanced exactly when scanning found nothing to say and the brackets form a balanced word. */
  method CheckLispBalance(source: Text) returns (balanced: bool, scanned: seq<Diagnostic>, found: seq<BracketDiagnostic>)
    ensures scanned == Diagnostics(Lex(source), 0)
    ensures var tokens := Tokens(Lex(source), 0, false);
            found == SaidOfClosers(tokens, |tokens|) + SaidOfOpeners(tokens) && (found == [] <==> Dyck(Brackets(tokens)))
    ensures balanced <==> Diagnostics(Lex(source), 0) == [] && Dyck(Brackets(Tokens(Lex(source), 0, false)))
  {
    var tokens;
    tokens, scanned := ScanLisp(source, false);
    found := MatchTokens(tokens);
    BracketsOnly(tokens);
    MatchesIsDyck(Brackets(tokens));
    balanced := scanned == [] && found == [];
  }

  lemma {:induction false} BracketsOnly(tokens: seq<Token>)
    ensures AllBrackets(Brackets(tokens))
  {
    if tokens != [] { BracketsOnly(tokens[1..]); }
  }

  lemma {:induction false} MatchOpener(token: Token, rest: Text, stack: seq<Token>)
    requires |token.value| == 1 && IsOpener(token.value[0]) && AllOpeners(stack)
    ensures AllOpeners(stack + [token]) && Matches(token.value + rest, Openers(stack)) == Matches(rest, Openers(stack + [token]))
  {
    assert (token.value + rest)[1..] == rest && Openers(stack + [token]) == Openers(stack) + [token.value[0]];
  }

  lemma {:induction false} MatchCloser(token: Token, rest: Text, stack: seq<Token>)
    requires |token.value| == 1 && IsCloser(token.value[0]) && AllOpeners(stack) && stack != []
    ensures AllOpeners(stack[..|stack| - 1])
    ensures Matches(token.value + rest, Openers(stack))
         == (Pairs(stack[|stack| - 1].value[0], token.value[0]) && Matches(rest, Openers(stack[..|stack| - 1])))
  {
    assert (token.value + rest)[1..] == rest && Openers(stack)[..|stack| - 1] == Openers(stack[..|stack| - 1]);
  }
}
