/**
 Which brackets of a word are to blame when a closer that fits nothing is passed over: said with
 the words that can still become balanced, without a stack.
 */
module BracketFindings {
  import opened BracketPartners
  import opened BracketWords
  import opened CodeUnits

  /** Some ending makes the word balanced. */
  ghost predicate CanBalance(w: Text) { exists v: Text :: AllBrackets(v) && Dyck(w + v) }

  /** A bracket and where it stands. */
  datatype Place = Place(unit: CodeUnit, position: nat)

  function Units(bs: seq<Place>): (w: Text)
    ensures |w| == |bs|
  {
    seq(|bs|, i requires 0 <= i < |bs| => bs[i].unit)
  }

  predicate OnlyBrackets(bs: seq<Place>) {
    forall i | 0 <= i < |bs| :: IsBracket(bs[i].unit)
  }

  /** The brackets that are kept: each that leaves a word which can be balanced. */
  ghost function Kept(bs: seq<Place>): seq<Place> {
    if bs == [] then []
    else
      var kept, last := Kept(bs[..|bs| - 1]), bs[|bs| - 1];
      if CanBalance(Units(kept + [last])) then kept + [last] else kept
  }

  /** Where the others stand, in order. */
  ghost function Refused(bs: seq<Place>): seq<nat> {
    if bs == [] then []
    else
      var kept, last := Kept(bs[..|bs| - 1]), bs[|bs| - 1];
      Refused(bs[..|bs| - 1]) + if CanBalance(Units(kept + [last])) then [] else [last.position]
  }

  // ---------------------------------------------------------------- the stack

  /** The stack holds what is open in the word that was kept, and is all that matters for what comes. */
  ghost predicate Tracks(stack: seq<Place>, open: seq<nat>, kept: seq<Place>) {
    && AllBrackets(Units(kept)) && (forall k | 0 <= k < |stack| :: IsOpener(stack[k].unit))
    && |open| == |stack| && AreOpen(Units(kept), open, |kept|)
    && (forall k | 0 <= k < |stack| :: open[k] < |kept| && stack[k] == kept[open[k]])
    && Continues(Units(kept), Units(stack))
  }

  ghost predicate Continues(w: Text, stack: Text) {
    forall v: Text :: Matches(w + v, []) == Matches(v, stack)
  }

  function Closer(o: CodeUnit): CodeUnit {
    if o == LPAREN then RPAREN else if o == LBRACKET then RBRACKET else RBRACE
  }

  /** What closes everything on a stack. */
  function Completion(stack: Text): Text {
    if stack == [] then [] else [Closer(stack[|stack| - 1])] + Completion(stack[..|stack| - 1])
  }

  lemma {:induction false} CompletionMatches(stack: Text)
    requires forall k | 0 <= k < |stack| :: IsOpener(stack[k])
    ensures Matches(Completion(stack), stack) && AllBrackets(Completion(stack))
  {
    if stack != [] {
      var below, top := stack[..|stack| - 1], stack[|stack| - 1];
      CompletionMatches(below);
      assert stack == below + [top];
      MatchesPop(top, Closer(top), Completion(below), below);
    }
  }

  lemma {:induction false} CanBalanceIf(w: Text, stack: Text)
    requires AllBrackets(w) && Continues(w, stack) && forall k | 0 <= k < |stack| :: IsOpener(stack[k])
    ensures CanBalance(w)
  {
    var v := Completion(stack);
    CompletionMatches(stack);
    MatchesIsDyck(w + v);
  }

  lemma {:induction false} ContinuesPush(w: Text, stack: Text, u: CodeUnit)
    requires Continues(w, stack) && IsOpener(u)
    ensures Continues(w + [u], stack + [u])
  {
    forall v: Text ensures Matches(w + [u] + v, []) == Matches(v, stack + [u]) {
      assert w + [u] + v == w + ([u] + v);
      MatchesPush(u, v, stack);
    }
  }

  lemma {:induction false} ContinuesPop(w: Text, below: Text, o: CodeUnit, u: CodeUnit)
    requires Continues(w, below + [o]) && IsCloser(u) && Pairs(o, u)
    ensures Continues(w + [u], below)
  {
    forall v: Text ensures Matches(w + [u] + v, []) == Matches(v, below) {
      assert w + [u] + v == w + ([u] + v);
      MatchesPop(o, u, v, below);
    }
  }

  lemma {:induction false} CannotBalance(w: Text, stack: Text, u: CodeUnit)
    requires AllBrackets(w) && Continues(w, stack) && IsCloser(u) && (stack == [] || !Pairs(stack[|stack| - 1], u))
    ensures !CanBalance(w + [u])
  {
    forall v: Text | AllBrackets(v) ensures !Dyck(w + [u] + v) {
      assert w + [u] + v == w + ([u] + v);
      assert Matches(w + ([u] + v), []) == Matches([u] + v, stack);
      MatchesIsDyck(w + [u] + v);
    }
  }

  // ---------------------------------------------------------------- growing words

  lemma {:induction false} HeightAppend(w: Text, u: CodeUnit, n: nat)
    requires n <= |w|
    ensures Height(w + [u], n) == Height(w, n)
  {
    if n > 0 { HeightAppend(w, u, n - 1); }
  }

  lemma {:induction false} AreOpenAppend(w: Text, u: CodeUnit, open: seq<nat>)
    requires AreOpen(w, open, |w|)
    ensures AreOpen(w + [u], open, |w|)
  {
    var w' := w + [u];
    forall k: nat | k <= |w| ensures Height(w', k) == Height(w, k) { HeightAppend(w, u, k); }
    forall j: nat ensures OpenAt(w', j, |w|) <==> j in open {
      assert OpenAt(w', j, |w|) <==> OpenAt(w, j, |w|);
    }
  }

  lemma {:induction false} UnitsAppend(bs: seq<Place>, b: Place)
    ensures Units(bs + [b]) == Units(bs) + [b.unit]
  {}

  lemma {:induction false} KeptAppend(bs: seq<Place>, b: Place)
    ensures Kept(bs + [b]) == if CanBalance(Units(Kept(bs)) + [b.unit]) then Kept(bs) + [b] else Kept(bs)
    ensures Refused(bs + [b]) == Refused(bs) + if CanBalance(Units(Kept(bs)) + [b.unit]) then [] else [b.position]
  {
    var all := bs + [b];
    assert all[..|all| - 1] == bs;
    UnitsAppend(Kept(bs), b);
  }

  lemma {:induction false} TracksPush(stack: seq<Place>, open: seq<nat>, kept: seq<Place>, b: Place)
    requires Tracks(stack, open, kept) && IsOpener(b.unit)
    ensures Tracks(stack + [b], open + [|kept|], kept + [b]) && CanBalance(Units(kept) + [b.unit])
  {
    var w := Units(kept);
    UnitsAppend(kept, b);
    UnitsAppend(stack, b);
    ContinuesPush(w, Units(stack), b.unit);
    CanBalanceIf(w + [b.unit], Units(stack) + [b.unit]);
    AreOpenAppend(w, b.unit, open);
    OneMoreOpen(w + [b.unit], open, |w|);
  }

  lemma {:induction false} TracksPop(stack: seq<Place>, open: seq<nat>, kept: seq<Place>, b: Place)
    requires Tracks(stack, open, kept) && stack != [] && IsCloser(b.unit) && Pairs(stack[|stack| - 1].unit, b.unit)
    ensures Tracks(stack[..|stack| - 1], open[..|open| - 1], kept + [b]) && CanBalance(Units(kept) + [b.unit])
  {
    var w, below, top := Units(kept), stack[..|stack| - 1], stack[|stack| - 1];
    UnitsAppend(kept, b);
    UnitsAppend(below, top);
    assert stack == below + [top];
    ContinuesPop(w, Units(below), top.unit, b.unit);
    CanBalanceIf(w + [b.unit], Units(below));
    AreOpenAppend(w, b.unit, open);
    LastIsClosed(w + [b.unit], open, |w|);
  }

  lemma {:induction false} TracksRefuse(stack: seq<Place>, open: seq<nat>, kept: seq<Place>, b: Place)
    requires Tracks(stack, open, kept) && IsCloser(b.unit) && (stack == [] || !Pairs(stack[|stack| - 1].unit, b.unit))
    ensures !CanBalance(Units(kept) + [b.unit])
  {
    CannotBalance(Units(kept), Units(stack), b.unit);
  }
}
