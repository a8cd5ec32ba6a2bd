/**
 Words over three kinds of brackets: the grammar of the balanced ones, and matching with a stack.
 */
module BracketWords {
  import opened CodeUnits

  predicate IsOpener(u: CodeUnit) { u == LPAREN || u == LBRACKET || u == LBRACE }

  predicate IsCloser(u: CodeUnit) { u == RPAREN || u == RBRACKET || u == RBRACE }

  predicate IsBracket(u: CodeUnit) { IsOpener(u) || IsCloser(u) }

  predicate Pairs(open: CodeUnit, close: CodeUnit) {
    || (open == LPAREN && close == RPAREN) || (open == LBRACKET && close == RBRACKET) || (open == LBRACE && close == RBRACE)
  }

  /** The grammar: nothing, or a balanced word in a pair of brackets with a balanced word after it. */
  ghost predicate Dyck(w: Text)
    decreases |w|, 1
  {
    w == [] || exists i :: DyckAt(w, i)
  }

  ghost predicate DyckAt(w: Text, i: nat)
    decreases |w|, 0
  {
    0 < i < |w| && Pairs(w[0], w[i]) && Dyck(w[1..i]) && Dyck(w[i + 1..])
  }

  /** Matching from the left, the open brackets on a stack with the newest last. */
  predicate Matches(w: Text, stack: Text)
    decreases |w|
  {
    if w == [] then stack == []
    else if IsOpener(w[0]) then Matches(w[1..], stack + [w[0]])
    else if IsCloser(w[0]) then stack != [] && Pairs(stack[|stack| - 1], w[0]) && Matches(w[1..], stack[..|stack| - 1])
    else Matches(w[1..], stack)
  }

  predicate AllBrackets(w: Text) {
    forall i | 0 <= i < |w| :: IsBracket(w[i])
  }

  lemma {:induction false} DyckPair(o: CodeUnit, a: Text, c: CodeUnit, b: Text)
    requires Pairs(o, c) && Dyck(a) && Dyck(b)
    ensures Dyck([o] + a + [c] + b)
  {
    var w := [o] + a + [c] + b;
    assert w[1..|a| + 1] == a && w[|a| + 2..] == b;
    assert DyckAt(w, |a| + 1);
  }

  lemma {:induction false} DyckParts(w: Text) returns (a: Text, c: CodeUnit, b: Text)
    requires Dyck(w) && w != []
    ensures w == [w[0]] + a + [c] + b && Pairs(w[0], c) && Dyck(a) && Dyck(b)
  {
    var i: nat :| DyckAt(w, i);
    a, c, b := w[1..i], w[i], w[i + 1..];
  }

  lemma {:induction false} MatchesPush(o: CodeUnit, rest: Text, stack: Text)
    requires IsOpener(o)
    ensures Matches([o] + rest, stack) == Matches(rest, stack + [o])
  {
    assert ([o] + rest)[1..] == rest;
  }

  lemma {:induction false} MatchesPop(o: CodeUnit, c: CodeUnit, rest: Text, below: Text)
    requires IsCloser(c)
    ensures Matches([c] + rest, below + [o]) == (Pairs(o, c) && Matches(rest, below))
  {
    assert ([c] + rest)[1..] == rest && (below + [o])[..|below|] == below;
  }

  lemma {:induction false} RegroupParts(o: Text, a: Text, c: Text, b: Text, rest: Text)
    ensures o + a + c + b + rest == o + (a + (c + (b + rest)))
  {}

  /** A balanced word is matched without touching what is on the stack. */
  lemma {:induction false} DyckIsSkipped(w: Text, rest: Text, stack: Text)
    requires Dyck(w)
    ensures Matches(w + rest, stack) == Matches(rest, stack)
    decreases |w|
  {
    if w == [] {
      assert w + rest == rest;
    } else {
      var a, c, b := DyckParts(w);
      var o := w[0];
      RegroupParts([o], a, [c], b, rest);
      MatchesPush(o, a + ([c] + (b + rest)), stack);
      DyckIsSkipped(a, [c] + (b + rest), stack + [o]);
      MatchesPop(o, c, b + rest, stack);
      DyckIsSkipped(b, rest, stack);
    }
  }

  /** Where the top of the stack is closed: a balanced word, the closing bracket, and the rest. */
  lemma {:induction false} ClosesTop(w: Text, o: CodeUnit, below: Text) returns (a: Text, c: CodeUnit, rest: Text)
    requires AllBrackets(w) && Matches(w, below + [o])
    ensures w == a + [c] + rest && Dyck(a) && Pairs(o, c) && Matches(rest, below) && AllBrackets(rest)
    decreases |w|
  {
    assert w != [] && IsBracket(w[0]);
    var t := w[1..];
    assert w == [w[0]] + t && AllBrackets(t);
    if IsOpener(w[0]) {
      MatchesPush(w[0], t, below + [o]);
      var a1, c1, r1 := ClosesTop(t, w[0], below + [o]);
      var a2, c2, r2 := ClosesTop(r1, o, below);
      DyckPair(w[0], a1, c1, a2);
      a, c, rest := [w[0]] + a1 + [c1] + a2, c2, r2;
      RegroupParts([w[0]], a1, [c1], a2, [c2] + r2);
    } else {
      MatchesPop(o, w[0], t, below);
      a, c, rest := [], w[0], t;
    }
  }

  /** Matching accepts exactly the balanced words. */
  lemma {:induction false} MatchesIsDyck(w: Text)
    requires AllBrackets(w)
    ensures Matches(w, []) <==> Dyck(w)
    decreases |w|
  {
    if Dyck(w) {
      DyckIsSkipped(w, [], []);
      assert w + [] == w;
    }
    if Matches(w, []) && w != [] {
      assert IsBracket(w[0]) && IsOpener(w[0]);
      var t := w[1..];
      assert w == [w[0]] + t && AllBrackets(t);
      MatchesPush(w[0], t, []);
      var a, c, rest := ClosesTop(t, w[0], []);
      MatchesIsDyck(rest);
      DyckPair(w[0], a, c, rest);
      assert w == [w[0]] + a + [c] + rest;
    }
  }
}
