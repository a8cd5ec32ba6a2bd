/**
 The tree builder of the parameter inference: tokens into nested nodes, and the way down to the
 nodes around a selection. A forest is a list of siblings, each with the forest of its children.
 */
module LispTree {
  import opened BracketWords
  import opened CodeUnits
  import opened LispBalance
  import opened LispLexer
  import opened Sequences
  import opened Wrappers

  datatype Forest =
    | Empty
    | Atom(token: Token, rest: Forest)
    | Group(opener: Token, children: Forest, closer: Option<Token>, rest: Forest)

  predicate Opens(t: Token) { IsBracketToken(t) && IsOpener(t.value[0]) }

  predicate Closes(t: Token) { IsBracketToken(t) && IsCloser(t.value[0]) }

  function Append(f: Forest, g: Forest): Forest {
    match f
    case Empty => g
    case Atom(t, rest) => Atom(t, Append(rest, g))
    case Group(o, c, e, rest) => Group(o, c, e, Append(rest, g))
  }

  /** The tokens of a forest, from left to right. */
  function Flatten(f: Forest): seq<Token> {
    match f
    case Empty => []
    case Atom(t, rest) => [t] + Flatten(rest)
    case Group(o, c, e, rest) => [o] + Flatten(c) + (if e.Some? then [e.value] else []) + Flatten(rest)
  }

  // ---------------------------------------------------------------- building

  /** A node under construction and the children it has so far. */
  datatype Frame = Frame(opener: Token, children: Forest)

  /** The root's children and the nodes that are still open, the innermost last. */
  datatype Builder = Builder(root: Forest, open: seq<Frame>)

  /** The innermost node gets another child. */
  function WithChild(b: Builder, f: Forest): Builder {
    if b.open == [] then b.(root := Append(b.root, f))
    else
      var top := b.open[|b.open| - 1];
      b.(open := b.open[..|b.open| - 1] + [top.(children := Append(top.children, f))])
  }

  /** Close the innermost node, with its bracket or at the end of the tokens without one. */
  function Popped(b: Builder, closer: Option<Token>): Builder
    requires b.open != []
  {
    var top := b.open[|b.open| - 1];
    WithChild(b.(open := b.open[..|b.open| - 1]), Group(top.opener, top.children, closer, Empty))
  }

  /** One token; a closing bracket of any kind closes the innermost node, and is dropped when there is none. */
  function Added(b: Builder, t: Token): Builder {
    if Opens(t) then b.(open := b.open + [Frame(t, Empty)])
    else if Closes(t) then (if b.open == [] then b else Popped(b, Some(t)))
    else WithChild(b, Atom(t, Empty))
  }

  function AddedAll(b: Builder, tokens: seq<Token>): Builder
    decreases |tokens|
  {
    if tokens == [] then b else AddedAll(Added(b, tokens[0]), tokens[1..])
  }

  function Finished(b: Builder): Forest
    decreases |b.open|
  {
    if b.open == [] then b.root else Finished(Popped(b, None))
  }

  function Build(tokens: seq<Token>): Forest {
    Finished(AddedAll(Builder(Empty, []), tokens))
  }

  method BuildTree(tokens: seq<Token>) returns (root: Forest, end: nat)
    ensures root == Build(tokens)
    ensures end == if tokens == [] then 0 else tokens[|tokens| - 1].end
  {
    var b := Builder(Empty, []);
    assert tokens[0..] == tokens;
    for i := 0 to |tokens|
      invariant AddedAll(b, tokens[i..]) == AddedAll(Builder(Empty, []), tokens)
    {
      assert tokens[i..][1..] == tokens[i + 1..];
      b := Added(b, tokens[i]);
    }
    assert tokens[|tokens|..] == [];
    while b.open != []
      invariant Finished(b) == Build(tokens)
      decreases |b.open|
    {
      b := Popped(b, None);
    }
    root, end := b.root, if tokens == [] then 0 else tokens[|tokens| - 1].end;
  }

  // ---------------------------------------------------------------- what building keeps

  lemma {:induction false} FlattenAppend(f: Forest, g: Forest)
    ensures Flatten(Append(f, g)) == Flatten(f) + Flatten(g)
  {
    match f
    case Empty =>
    case Atom(t, rest) =>
      FlattenAppend(rest, g);
      Regroup([t], Flatten(rest), Flatten(g));
    case Group(o, c, e, rest) =>
      FlattenAppend(rest, g);
      Regroup([o] + Flatten(c) + (if e.Some? then [e.value] else []), Flatten(rest), Flatten(g));
  }

  /** The tokens of the open nodes, the outermost first. */
  function FlattenFrames(open: seq<Frame>): seq<Token> {
    if open == [] then []
    else
      var top := open[|open| - 1];
      FlattenFrames(open[..|open| - 1]) + ([top.opener] + Flatten(top.children))
  }

  function FlattenBuilder(b: Builder): seq<Token> {
    Flatten(b.root) + FlattenFrames(b.open)
  }

  lemma {:induction false} FlattenTop(below: seq<Frame>, top: Frame)
    ensures FlattenFrames(below + [top]) == FlattenFrames(below) + ([top.opener] + Flatten(top.children))
  {
    assert (below + [top])[..|below|] == below;
  }

  lemma {:induction false} Regroup5<T>(a: seq<T>, b: seq<T>, c: seq<T>, d: seq<T>, e: seq<T>)
    ensures a + (b + (c + (d + e))) == (a + (b + (c + d))) + e
  {}

  lemma {:induction false} ChildKeepsTokens(b: Builder, f: Forest)
    ensures FlattenBuilder(WithChild(b, f)) == FlattenBuilder(b) + Flatten(f)
  {
    if b.open == [] {
      FlattenAppend(b.root, f);
    } else {
      var top, below := b.open[|b.open| - 1], b.open[..|b.open| - 1];
      FlattenAppend(top.children, f);
      FlattenTop(below, top.(children := Append(top.children, f)));
      FlattenTop(below, top);
      assert b.open == below + [top];
      Regroup5(Flatten(b.root), FlattenFrames(below), [top.opener], Flatten(top.children), Flatten(f));
    }
  }

  lemma {:induction false} PopKeepsTokens(b: Builder, closer: Option<Token>)
    requires b.open != []
    ensures FlattenBuilder(Popped(b, closer)) == FlattenBuilder(b) + if closer.Some? then [closer.value] else []
  {
    var top, below := b.open[|b.open| - 1], b.(open := b.open[..|b.open| - 1]);
    ChildKeepsTokens(below, Group(top.opener, top.children, closer, Empty));
  }

  /** The tokens that do not get lost: all but the closing brackets that come when no node is open. */
  function Kept(tokens: seq<Token>, depth: nat): seq<Token> {
    if tokens == [] then []
    else if Opens(tokens[0]) then [tokens[0]] + Kept(tokens[1..], depth + 1)
    else if Closes(tokens[0]) then (if depth == 0 then Kept(tokens[1..], 0) else [tokens[0]] + Kept(tokens[1..], depth - 1))
    else [tokens[0]] + Kept(tokens[1..], depth)
  }

  lemma {:induction false} AddKeepsTokens(b: Builder, t: Token)
    ensures FlattenBuilder(Added(b, t)) == FlattenBuilder(b) + if Closes(t) && b.open == [] then [] else [t]
  {
    if Opens(t) {
      var open := Added(b, t).open;
      assert open[..|open| - 1] == b.open;
    } else if Closes(t) {
      if b.open != [] { PopKeepsTokens(b, Some(t)); }
    } else {
      ChildKeepsTokens(b, Atom(t, Empty));
    }
  }

  lemma {:induction false} AllKeepTokens(b: Builder, tokens: seq<Token>)
    ensures FlattenBuilder(AddedAll(b, tokens)) == FlattenBuilder(b) + Kept(tokens, |b.open|)
    decreases |tokens|
  {
    if tokens != [] {
      AddKeepsTokens(b, tokens[0]);
      AllKeepTokens(Added(b, tokens[0]), tokens[1..]);
      Regroup(FlattenBuilder(b), [tokens[0]], Kept(tokens[1..], |Added(b, tokens[0]).open|));
    }
  }

  lemma {:induction false} FinishKeepsTokens(b: Builder)
    ensures Flatten(Finished(b)) == FlattenBuilder(b)
    decreases |b.open|
  {
    if b.open != [] {
      PopKeepsTokens(b, None);
      FinishKeepsTokens(Popped(b, None));
    }
  }

  /** The tree holds the tokens in their order, without the closing brackets that close nothing. */
  lemma {:induction false} FlattenBuild(tokens: seq<Token>)
    ensures Flatten(Build(tokens)) == Kept(tokens, 0)
  {
    AllKeepTokens(Builder(Empty, []), tokens);
    FinishKeepsTokens(AddedAll(Builder(Empty, []), tokens));
  }

  // ---------------------------------------------------------------- balanced tokens

  /** Every node has the closing bracket that belongs to its opening one. */
  ghost predicate AllClosed(f: Forest) {
    match f
    case Empty => true
    case Atom(_, rest) => AllClosed(rest)
    case Group(o, c, e, rest) =>
      Opens(o) && e.Some? && Closes(e.value) && Pairs(o.value[0], e.value.value[0]) && AllClosed(c) && AllClosed(rest)
  }

  lemma {:induction false} ClosedAppend(f: Forest, g: Forest)
    requires AllClosed(f) && AllClosed(g)
    ensures AllClosed(Append(f, g))
  {
    match f
    case Empty =>
    case Atom(t, rest) => ClosedAppend(rest, g);
    case Group(o, c, e, rest) => ClosedAppend(rest, g);
  }

  ghost predicate FramesClosed(open: seq<Frame>) {
    forall i | 0 <= i < |open| :: Opens(open[i].opener) && AllClosed(open[i].children)
  }

  ghost predicate Sound(b: Builder) {
    AllClosed(b.root) && FramesClosed(b.open)
  }

  function OpenBrackets(open: seq<Frame>): Text {
    if open == [] then [] else OpenBrackets(open[..|open| - 1]) + BracketOf(open[|open| - 1].opener)
  }

  lemma {:induction false} ChildKeepsSound(b: Builder, f: Forest)
    requires Sound(b) && AllClosed(f)
    ensures Sound(WithChild(b, f)) && OpenBrackets(WithChild(b, f).open) == OpenBrackets(b.open)
  {
    if b.open == [] {
      ClosedAppend(b.root, f);
    } else {
      ClosedAppend(b.open[|b.open| - 1].children, f);
      var open := WithChild(b, f).open;
      assert open[..|open| - 1] == b.open[..|b.open| - 1];
    }
  }

  /** A token that matching accepts keeps the builder sound and does to its open nodes what matching does to its stack. */
  lemma {:induction false} AddKeepsSound(b: Builder, t: Token, rest: Text)
    requires Sound(b) && Matches(BracketOf(t) + rest, OpenBrackets(b.open))
    ensures Sound(Added(b, t)) && Matches(rest, OpenBrackets(Added(b, t).open)) && !(Closes(t) && b.open == [])
  {
    if Opens(t) {
      var open := Added(b, t).open;
      assert open[..|open| - 1] == b.open;
      MatchesPush(t.value[0], rest, OpenBrackets(b.open));
      assert BracketOf(t) == [t.value[0]];
    } else if Closes(t) {
      assert BracketOf(t) == [t.value[0]];
      NothingToClose(t.value[0], rest);
      PopKeepsSound(b, t, rest);
    } else {
      assert [] + rest == rest;
      ChildKeepsSound(b, Atom(t, Empty));
    }
  }

  lemma {:induction false} NothingToClose(c: CodeUnit, rest: Text)
    requires IsCloser(c)
    ensures !Matches([c] + rest, [])
  {}

  lemma {:induction false} PopKeepsSound(b: Builder, t: Token, rest: Text)
    requires Sound(b) && b.open != [] && Closes(t) && Matches([t.value[0]] + rest, OpenBrackets(b.open))
    ensures Sound(Popped(b, Some(t))) && Matches(rest, OpenBrackets(Popped(b, Some(t)).open))
  {
    var top, below := b.open[|b.open| - 1], b.(open := b.open[..|b.open| - 1]);
    MatchesPop(top.opener.value[0], t.value[0], rest, OpenBrackets(below.open));
    assert BracketOf(top.opener) == [top.opener.value[0]];
    ChildKeepsSound(below, Group(top.opener, top.children, Some(t), Empty));
  }

  lemma {:induction false} AllKeepSound(b: Builder, tokens: seq<Token>)
    requires Sound(b) && Matches(Brackets(tokens), OpenBrackets(b.open))
    ensures Sound(AddedAll(b, tokens)) && AddedAll(b, tokens).open == []
    decreases |tokens|
  {
    if tokens == [] {
      NothingOpen(b.open);
    } else {
      AddKeepsSound(b, tokens[0], Brackets(tokens[1..]));
      AllKeepSound(Added(b, tokens[0]), tokens[1..]);
    }
  }

  /** Matched tokens are all kept. */
  lemma {:induction false} AllKept(tokens: seq<Token>, stack: Text)
    requires Matches(Brackets(tokens), stack)
    ensures Kept(tokens, |stack|) == tokens
  {
    if tokens != [] {
      var t, rest := tokens[0], Brackets(tokens[1..]);
      assert [t] + tokens[1..] == tokens;
      if Opens(t) {
        MatchesPush(t.value[0], rest, stack);
        assert BracketOf(t) == [t.value[0]];
        AllKept(tokens[1..], stack + [t.value[0]]);
      } else if Closes(t) {
        assert BracketOf(t) == [t.value[0]];
        NothingToClose(t.value[0], rest);
        var below, top := stack[..|stack| - 1], stack[|stack| - 1];
        assert stack == below + [top];
        MatchesPop(top, t.value[0], rest, below);
        AllKept(tokens[1..], below);
      } else {
        assert [] + rest == rest;
        AllKept(tokens[1..], stack);
      }
    }
  }

  lemma {:induction false} NothingOpen(open: seq<Frame>)
    requires FramesClosed(open) && OpenBrackets(open) == []
    ensures open == []
  {}

  /** Balanced tokens: all of them are in the tree, and every node is closed by its own bracket. */
  lemma {:induction false} BalancedIsWellBuilt(tokens: seq<Token>)
    requires Dyck(Brackets(tokens))
    ensures Flatten(Build(tokens)) == tokens && AllClosed(Build(tokens))
  {
    BracketsOnly(tokens);
    MatchesIsDyck(Brackets(tokens));
    AllKeepSound(Builder(Empty, []), tokens);
    AllKept(tokens, []);
    FlattenBuild(tokens);
  }

  // ---------------------------------------------------------------- spans

  function NodeEnd(opener: Token, closer: Option<Token>): nat {
    if closer.Some? then closer.value.end else opener.end
  }

  /** Tokens that follow each other without overlap, between `from` and `to`. */
  ghost predicate InOrder(tokens: seq<Token>, from: nat, to: nat) {
    && from <= to
    && (forall i | 0 <= i < |tokens| :: from <= tokens[i].start < tokens[i].end <= to)
    && (forall i, j | 0 <= i < j < |tokens| :: tokens[i].end <= tokens[j].start)
  }

  /** Siblings one after the other between `from` and `to`, each around its own children. */
  ghost predicate Nested(f: Forest, from: nat, to: nat) {
    match f
    case Empty => from <= to
    case Atom(t, rest) => from <= t.start < t.end <= to && Nested(rest, t.end, to)
    case Group(o, c, e, rest) =>
      && from <= o.start < o.end <= to
      && (e.Some? ==> o.end <= e.value.start < e.value.end <= to && Nested(c, o.end, e.value.start) && Nested(rest, e.value.end, to))
      && (e.None? ==> Nested(c, o.end, to))
  }

  lemma {:induction false} InOrderParts(a: seq<Token>, t: Token, b: seq<Token>, all: seq<Token>, from: nat, to: nat)
    requires all == a + [t] + b && InOrder(all, from, to)
    ensures InOrder(a, from, t.start) && from <= t.start < t.end <= to && InOrder(b, t.end, to)
  {
    assert all[|a|] == t;
    forall i | 0 <= i < |a| ensures from <= a[i].start < a[i].end <= t.start { assert all[i] == a[i]; }
    forall i, j | 0 <= i < j < |a| ensures a[i].end <= a[j].start { assert all[i] == a[i] && all[j] == a[j]; }
    forall i | 0 <= i < |b| ensures t.end <= b[i].start < b[i].end <= to { assert all[|a| + 1 + i] == b[i]; }
    forall i, j | 0 <= i < j < |b| ensures b[i].end <= b[j].start { assert all[|a| + 1 + i] == b[i] && all[|a| + 1 + j] == b[j]; }
  }

  /** In a tree without open nodes spans nest and siblings are disjoint and in order. */
  lemma {:induction false} SpansNest(f: Forest, from: nat, to: nat)
    requires AllClosed(f) && InOrder(Flatten(f), from, to)
    ensures Nested(f, from, to)
  {
    match f
    case Empty =>
    case Atom(t, rest) =>
      InOrderParts([], t, Flatten(rest), Flatten(f), from, to);
      SpansNest(rest, t.end, to);
    case Group(o, c, e, rest) =>
      var inner := Flatten(c) + ([e.value] + Flatten(rest));
      assert Flatten(f) == [] + [o] + inner;
      InOrderParts([], o, inner, Flatten(f), from, to);
      assert inner == Flatten(c) + [e.value] + Flatten(rest);
      InOrderParts(Flatten(c), e.value, Flatten(rest), inner, o.end, to);
      SpansNest(c, o.end, e.value.start);
      SpansNest(rest, e.value.end, to);
  }

  /** The scanner's tokens are in order. */
  lemma {:induction false} TokensInOrder(ls: seq<Lexeme>, at: nat, trivia: bool)
    requires forall i | 0 <= i < |ls| :: ls[i].text != []
    ensures InOrder(Tokens(ls, at, trivia), at, at + |LispLexer.Flatten(ls)|)
  {
    if ls != [] {
      TokensInOrder(ls[1..], at + |ls[0].text|, trivia);
      var mine, rest := TokenOf(ls[0], at, trivia), Tokens(ls[1..], at + |ls[0].text|, trivia);
      var all := Tokens(ls, at, trivia);
      assert all == mine + rest;
      forall i | 0 <= i < |all| ensures at <= all[i].start < all[i].end <= at + |LispLexer.Flatten(ls)| {
        if i >= |mine| { assert all[i] == rest[i - |mine|]; }
      }
      forall i, j | 0 <= i < j < |all| ensures all[i].end <= all[j].start {
        assert all[j] == rest[j - |mine|];
        if i >= |mine| { assert all[i] == rest[i - |mine|]; }
      }
    }
  }

  // ---------------------------------------------------------------- the way to a selection

  datatype Node = Node(opener: Token, children: Forest, closer: Option<Token>)

  predicate Contains(o: Token, e: Option<Token>, start: nat, end: nat) {
    o.start <= start && end <= NodeEnd(o, e)
  }

  /** findContainingPath among siblings: down the first node that contains the selection. */
  function PathIn(f: Forest, start: nat, end: nat): Option<seq<Node>> {
    match f
    case Empty => None
    case Atom(_, rest) => PathIn(rest, start, end)
    case Group(o, c, e, rest) =>
      if !Contains(o, e, start, end) then PathIn(rest, start, end)
      else
        var below := PathIn(c, start, end);
        Some([Node(o, c, e)] + if below.Some? then below.value else [])
  }

  /** findContainingPath from the root, whose span is from 0 to `rootEnd`; the root itself is left out of the path. */
  function FindContainingPath(root: Forest, rootEnd: nat, start: nat, end: nat): Option<seq<Node>> {
    if rootEnd < end then None
    else
      var below := PathIn(root, start, end);
      Some(if below.Some? then below.value else [])
  }

  /** All nodes that contain the selection, parents before their children. */
  function Containing(f: Forest, start: nat, end: nat): seq<Node> {
    match f
    case Empty => []
    case Atom(_, rest) => Containing(rest, start, end)
    case Group(o, c, e, rest) =>
      (if Contains(o, e, start, end) then [Node(o, c, e)] else []) + Containing(c, start, end) + Containing(rest, start, end)
  }

  /** Nothing between `from` and `to` contains a selection that reaches outside. */
  lemma {:induction false} NothingContains(f: Forest, from: nat, to: nat, start: nat, end: nat)
    requires Nested(f, from, to) && AllClosed(f) && (start < from || end > to)
    ensures Containing(f, start, end) == []
  {
    match f
    case Empty =>
    case Atom(t, rest) => NothingContains(rest, t.end, to, start, end);
    case Group(o, c, e, rest) =>
      NothingContains(c, o.end, e.value.start, start, end);
      NothingContains(rest, e.value.end, to, start, end);
  }

  /** For a selection that is not empty the path is exactly the nodes that contain it, the outermost first. */
  lemma {:induction false} PathIsContaining(f: Forest, from: nat, to: nat, start: nat, end: nat)
    requires Nested(f, from, to) && AllClosed(f) && start < end
    ensures PathIn(f, start, end) == if Containing(f, start, end) == [] then None else Some(Containing(f, start, end))
  {
    match f
    case Empty =>
    case Atom(t, rest) => PathIsContaining(rest, t.end, to, start, end);
    case Group(o, c, e, rest) =>
      if Contains(o, e, start, end) {
        PathIsContaining(c, o.end, e.value.start, start, end);
        NothingContains(rest, e.value.end, to, start, end);
        assert Containing(f, start, end) == [Node(o, c, e)] + Containing(c, start, end);
      } else {
        NothingContains(c, o.end, e.value.start, start, end);
        PathIsContaining(rest, e.value.end, to, start, end);
        assert Containing(f, start, end) == Containing(rest, start, end);
      }
  }

  /** The same for a whole source with balanced brackets. */
  lemma {:induction false} PathInSource(source: Text, start: nat, end: nat)
    requires start < end
    requires var tokens := Tokens(Lex(source), 0, false);
             Dyck(Brackets(tokens)) && tokens != [] && end <= tokens[|tokens| - 1].end
    ensures var tokens := Tokens(Lex(source), 0, false);
            FindContainingPath(Build(tokens), tokens[|tokens| - 1].end, start, end) == Some(Containing(Build(tokens), start, end))
  {
    var tokens := Tokens(Lex(source), 0, false);
    LexemesNotEmpty(source);
    FlattenLex(source);
    TokensInOrder(Lex(source), 0, false);
    BalancedIsWellBuilt(tokens);
    SpansNest(Build(tokens), 0, |source|);
    PathIsContaining(Build(tokens), 0, |source|, start, end);
  }

  lemma {:induction false} LexemesNotEmpty(t: Text)
    ensures forall i | 0 <= i < |Lex(t)| :: Lex(t)[i].text != []
    decreases |t|
  {
    if t != [] {
      var x := Head(t);
      LexemesNotEmpty(t[|x.text|..]);
    }
  }
}
