/**
 Which names a function definition or a binding form binds, said on the tokens that are written
 where its parameters and its bound names stand.
 */
module BindingForms {
  import opened CodeUnits
  import opened LispLexer
  import opened LispTree
  import opened ParameterInference
  import opened Wrappers

  /** The siblings of a forest, each on its own. */
  ghost function Nodes(f: Forest): seq<Forest> {
    match f
    case Empty => []
    case Atom(t, rest) => [Atom(t, Empty)] + Nodes(rest)
    case Group(o, c, e, rest) => [Group(o, c, e, Empty)] + Nodes(rest)
  }

  /** The names among some tokens. */
  ghost function Names(ts: seq<Token>, candidate: Text -> bool): set<Text> {
    set t | t in ts && t.kind == SymbolToken && candidate(t.value) :: t.value
  }

  /** The names written in a node and below it. */
  ghost function NamesIn(f: Forest, candidate: Text -> bool): set<Text> { Names(LispTree.Flatten(f), candidate) }

  /** Nothing but lists and vectors, at any depth: no map that takes its argument apart. */
  ghost predicate Plain(f: Forest) {
    match f
    case Empty => true
    case Atom(_, rest) => Plain(rest)
    case Group(o, c, e, rest) =>
      && o.kind == DelimiterToken && (e.Some? ==> e.value.kind == DelimiterToken)
      && (IsList(o) || IsVector(o)) && Plain(c) && Plain(rest)
  }

  lemma {:induction false} NamesConcat(a: seq<Token>, b: seq<Token>, candidate: Text -> bool)
    ensures Names(a + b, candidate) == Names(a, candidate) + Names(b, candidate)
  {
    forall t | t in a + b ensures t in a || t in b {}
    forall t | t in a || t in b ensures t in a + b {}
  }

  lemma {:induction false} NamesOfOne(t: Token, candidate: Text -> bool)
    ensures Names([t], candidate) == if t.kind == SymbolToken && candidate(t.value) then {t.value} else {}
  {
    assert t in [t];
  }

  /** A pattern without maps binds every name that is written in it, at any depth, and nothing is left unread. */
  lemma {:induction false} PatternBinds(f: Forest, candidate: Text -> bool)
    requires Plain(f) && f != Empty
    ensures Pattern(f, candidate) == Bindings(NamesIn(Nodes(f)[0], candidate), [])
    decreases f, 0
  {
    match f
    case Empty =>
    case Atom(t, _) =>
      assert LispTree.Flatten(Nodes(f)[0]) == [t];
      NamesOfOne(t, candidate);
    case Group(o, c, e, _) =>
      PatternsBind(c, candidate);
      GroupNames(o, c, e, candidate);
  }

  lemma {:induction false} GroupNames(o: Token, c: Forest, e: Option<Token>, candidate: Text -> bool)
    requires o.kind == DelimiterToken && (e.Some? ==> e.value.kind == DelimiterToken)
    ensures NamesIn(Group(o, c, e, Empty), candidate) == NamesIn(c, candidate)
  {
    var closing := if e.Some? then [e.value] else [];
    assert LispTree.Flatten(Group(o, c, e, Empty)) == [o] + LispTree.Flatten(c) + closing;
    NamesConcat([o] + LispTree.Flatten(c), closing, candidate);
    NamesConcat([o], LispTree.Flatten(c), candidate);
    NamesOfOne(o, candidate);
    if e.Some? { NamesOfOne(e.value, candidate); }
  }

  lemma {:induction false} PatternsBind(f: Forest, candidate: Text -> bool)
    requires Plain(f)
    ensures Patterns(f, candidate) == Bindings(NamesIn(f, candidate), [])
    decreases f, 1
  {
    if f != Empty {
      PatternBinds(f, candidate);
      PatternsBind(f.rest, candidate);
      FirstAndRest(f);
      NamesConcat(LispTree.Flatten(Nodes(f)[0]), LispTree.Flatten(f.rest), candidate);
    }
  }

  lemma {:induction false} FirstAndRest(f: Forest)
    requires f != Empty
    ensures LispTree.Flatten(f) == LispTree.Flatten(Nodes(f)[0]) + LispTree.Flatten(f.rest)
    ensures Nodes(f) == [Nodes(f)[0]] + Nodes(f.rest)
  {
    match f
    case Empty =>
    case Atom(t, rest) =>
    case Group(o, c, e, rest) =>
      var front := [o] + LispTree.Flatten(c) + (if e.Some? then [e.value] else []);
      assert front + [] == front;
  }

  lemma {:induction false} NodeAt(f: Forest, n: nat)
    ensures n < |Nodes(f)| <==> Skip(f, n) != Empty
    ensures n < |Nodes(f)| ==> Nodes(Skip(f, n))[0] == Nodes(f)[n]
    ensures Plain(f) ==> Plain(Skip(f, n))
    decreases n
  {
    if f != Empty {
      FirstAndRest(f);
      if n > 0 { NodeAt(f.rest, n - 1); }
    }
  }

  // ---------------------------------------------------------------- the words

  ghost predicate FunctionWord(t: Text) { Spells(t, "lambda") || Spells(t, "fn") }

  ghost predicate DefinitionWord(t: Text) {
    Spells(t, "defun") || Spells(t, "defmacro") || Spells(t, "defn") || Spells(t, "defn-") || Spells(t, "defmacro-")
  }

  ghost predicate BindingWord(t: Text) {
    || Spells(t, "let") || Spells(t, "let*") || Spells(t, "loop") || Spells(t, "binding")
    || Spells(t, "with-open") || Spells(t, "doseq") || Spells(t, "for")
  }

  lemma {:induction false} TwoWords(t: Text)
    ensures IsOneOf(t, ["lambda", "fn"]) <==> FunctionWord(t)
  {
    var words := ["lambda", "fn"];
    assert words[0] == "lambda" && words[1] == "fn";
  }

  lemma {:induction false} FiveWords(t: Text)
    ensures IsOneOf(t, ["defun", "defmacro", "defn", "defn-", "defmacro-"]) <==> DefinitionWord(t)
  {
    var words := ["defun", "defmacro", "defn", "defn-", "defmacro-"];
    assert words[0] == "defun" && words[1] == "defmacro" && words[2] == "defn" && words[3] == "defn-" && words[4] == "defmacro-";
  }

  lemma {:induction false} SevenWords(t: Text)
    ensures IsOneOf(t, ["let", "let*", "loop", "binding", "with-open", "doseq", "for"]) <==> BindingWord(t)
  {
    var words := ["let", "let*", "loop", "binding", "with-open", "doseq", "for"];
    assert words[0] == "let" && words[1] == "let*" && words[2] == "loop" && words[3] == "binding";
    assert words[4] == "with-open" && words[5] == "doseq" && words[6] == "for";
  }

  /** No word is of two kinds: their first two letters tell them apart. */
  lemma {:induction false} OneKind(t: Text)
    ensures !(FunctionWord(t) && (DefinitionWord(t) || BindingWord(t))) && !(DefinitionWord(t) && BindingWord(t))
  {
    if FunctionWord(t) { assert |t| >= 2 && ((t[0] == 'l' as int && t[1] == 'a' as int) || (t[0] == 'f' as int && t[1] == 'n' as int)); }
    if DefinitionWord(t) { assert |t| >= 4 && t[0] == 'd' as int && t[1] == 'e' as int; }
    if BindingWord(t) { assert |t| >= 3 && !(t[0] == 'd' as int && t[1] == 'e' as int); }
  }

  // ---------------------------------------------------------------- the forms

  /** A list that starts with a symbol, and the symbol. */
  ghost predicate Calls(o: Token, children: Forest) {
    IsList(o) && children.Atom? && children.token.kind == SymbolToken
  }

  /** What the n-th node of a form writes, if it is there. */
  ghost function WrittenAt(children: Forest, n: nat, candidate: Text -> bool): set<Text> {
    if n < |Nodes(children)| then NamesIn(Nodes(children)[n], candidate) else {}
  }

  lemma {:induction false} PatternAt(children: Forest, n: nat, candidate: Text -> bool)
    requires Plain(Skip(children, n))
    ensures Pattern(Skip(children, n), candidate) == Bindings(WrittenAt(children, n, candidate), [])
  {
    NodeAt(children, n);
    if Skip(children, n) != Empty { PatternBinds(Skip(children, n), candidate); }
  }

  /** `(lambda (x y) ..)` and `(fn [x y] ..)` bind what is written behind the word. */
  lemma {:induction false} FunctionBinds(o: Token, children: Forest, candidate: Text -> bool)
    requires Calls(o, children) && FunctionWord(children.token.value) && Plain(children)
    ensures Introduced(o, children, candidate) == Bindings(WrittenAt(children, 1, candidate), [])
  {
    TwoWords(children.token.value);
    NodeAt(children, 1);
    PatternAt(children, 1, candidate);
  }

  /** `(defun f (x y) ..)` and its like bind what is written behind the name, and not the name. */
  lemma {:induction false} DefinitionBinds(o: Token, children: Forest, candidate: Text -> bool)
    requires Calls(o, children) && DefinitionWord(children.token.value) && Plain(children)
    ensures Introduced(o, children, candidate) == Bindings(WrittenAt(children, 2, candidate), [])
  {
    TwoWords(children.token.value);
    FiveWords(children.token.value);
    OneKind(children.token.value);
    NodeAt(children, 2);
    PatternAt(children, 2, candidate);
  }

  lemma {:induction false} BindingForm(o: Token, children: Forest, candidate: Text -> bool, at: Forest)
    requires Calls(o, children) && BindingWord(children.token.value) && at == Skip(children, 1) && at.Group?
    ensures IsVector(at.opener) ==> Introduced(o, children, candidate) == EvenPatterns(at.children, candidate)
    ensures IsList(at.opener) ==> Introduced(o, children, candidate) == PairPatterns(at.children, candidate)
  {
    TwoWords(children.token.value);
    FiveWords(children.token.value);
    SevenWords(children.token.value);
    OneKind(children.token.value);
  }

  /** Other words bind nothing. */
  lemma {:induction false} OthersBindNothing(o: Token, children: Forest, candidate: Text -> bool)
    requires Calls(o, children)
    requires !FunctionWord(children.token.value) && !DefinitionWord(children.token.value) && !BindingWord(children.token.value)
    ensures Introduced(o, children, candidate) == Bindings({}, [])
  {
    TwoWords(children.token.value);
    FiveWords(children.token.value);
    SevenWords(children.token.value);
  }

  /** A name written at every second place, from the first. */
  ghost predicate AtEvenPlace(nodes: seq<Forest>, candidate: Text -> bool, v: Text) {
    exists i: nat :: 2 * i < |nodes| && v in NamesIn(nodes[2 * i], candidate)
  }

  lemma {:induction false} TwoPlaces(nodes: seq<Forest>, candidate: Text -> bool, v: Text)
    requires |nodes| >= 2
    ensures AtEvenPlace(nodes, candidate, v) <==> v in NamesIn(nodes[0], candidate) || AtEvenPlace(nodes[2..], candidate, v)
  {
    var later := nodes[2..];
    if AtEvenPlace(nodes, candidate, v) && v !in NamesIn(nodes[0], candidate) {
      var i: nat :| 2 * i < |nodes| && v in NamesIn(nodes[2 * i], candidate);
      assert later[2 * (i - 1)] == nodes[2 * i];
    }
    if v in NamesIn(nodes[0], candidate) { assert v in NamesIn(nodes[2 * 0], candidate); }
    if AtEvenPlace(later, candidate, v) {
      var i: nat :| 2 * i < |later| && v in NamesIn(later[2 * i], candidate);
      assert nodes[2 * (i + 1)] == later[2 * i];
    }
  }

  lemma {:induction false} OnePlace(node: Forest, candidate: Text -> bool, v: Text)
    ensures AtEvenPlace([node], candidate, v) <==> v in NamesIn(node, candidate)
  {
    assert [node][2 * 0] == node;
  }

  /** `[x 1 y 2]`: the names are those written at every second place. */
  lemma {:induction false} VectorBinds(f: Forest, candidate: Text -> bool, v: Text)
    requires Plain(f)
    ensures EvenPatterns(f, candidate).issues == []
    ensures v in EvenPatterns(f, candidate).bound <==> AtEvenPlace(Nodes(f), candidate, v)
  {
    if f != Empty {
      var node := Nodes(f)[0];
      PatternBinds(f, candidate);
      FirstAndRest(f);
      if f.rest == Empty {
        OnePlace(node, candidate, v);
      } else {
        FirstAndRest(f.rest);
        VectorBinds(f.rest.rest, candidate, v);
        TwoPlaces(Nodes(f), candidate, v);
        assert Nodes(f)[2..] == Nodes(f.rest.rest);
      }
    }
  }

  /** A name written first in one of the lists. */
  ghost predicate FirstInAPair(nodes: seq<Forest>, candidate: Text -> bool, v: Text) {
    exists i: nat :: i < |nodes| && v in FirstIn(nodes[i], candidate)
  }

  lemma {:induction false} OneMorePair(node: Forest, later: seq<Forest>, candidate: Text -> bool, v: Text)
    ensures FirstInAPair([node] + later, candidate, v) <==> v in FirstIn(node, candidate) || FirstInAPair(later, candidate, v)
    ensures AllPairs([node] + later) <==> node.Group? && IsList(node.opener) && AllPairs(later)
  {
    var nodes := [node] + later;
    assert nodes[0] == node && forall i: nat | i < |later| :: nodes[i + 1] == later[i];
    assert forall i: nat | 0 < i < |nodes| :: nodes[i] == later[i - 1];
  }

  ghost predicate AllPairs(nodes: seq<Forest>) {
    forall i | 0 <= i < |nodes| :: nodes[i].Group? && IsList(nodes[i].opener)
  }

  /** `((x 1) (y 2))`: the names are those written first in each of the lists; anything but a list is an issue. */
  lemma {:induction false} PairsBind(f: Forest, candidate: Text -> bool, v: Text)
    requires Plain(f)
    ensures v in PairPatterns(f, candidate).bound <==> FirstInAPair(Nodes(f), candidate, v)
    ensures PairPatterns(f, candidate).issues == [] <==> AllPairs(Nodes(f))
  {
    if f != Empty {
      var node := Nodes(f)[0];
      FirstAndRest(f);
      PairsBind(f.rest, candidate, v);
      if f.Group? && IsList(f.opener) && f.children != Empty { PatternBinds(f.children, candidate); }
      OneMorePair(node, Nodes(f.rest), candidate, v);
    }
  }

  /** What is written first in a list. */
  ghost function FirstIn(f: Forest, candidate: Text -> bool): set<Text> {
    if f.Group? && IsList(f.opener) then WrittenAt(f.children, 0, candidate) else {}
  }

  /** `(let [x 1 y 2] ..)` and `(let ((x 1) (y 2)) ..)`; behind the word there may also be no bindings at all. */
  lemma {:induction false} LetBinds(o: Token, children: Forest, candidate: Text -> bool, v: Text)
    requires Calls(o, children) && BindingWord(children.token.value) && Plain(children)
    ensures v in Introduced(o, children, candidate).bound <==>
            && |Nodes(children)| > 1 && Nodes(children)[1].Group?
            && var bindings := Nodes(children)[1];
               if IsVector(bindings.opener) then AtEvenPlace(Nodes(bindings.children), candidate, v)
               else FirstInAPair(Nodes(bindings.children), candidate, v)
  {
    NodeAt(children, 1);
    var at := Skip(children, 1);
    if at.Group? {
      assert Nodes(at)[0] == Group(at.opener, at.children, at.closer, Empty);
      BindingForm(o, children, candidate, at);
      VectorBinds(at.children, candidate, v);
      PairsBind(at.children, candidate, v);
    } else {
      NoBindings(o, children, candidate);
    }
  }

  lemma {:induction false} NoBindings(o: Token, children: Forest, candidate: Text -> bool)
    requires Calls(o, children) && BindingWord(children.token.value) && !Skip(children, 1).Group?
    ensures Introduced(o, children, candidate) == Bindings({}, [])
  {
    TwoWords(children.token.value);
    FiveWords(children.token.value);
    OneKind(children.token.value);
  }
}
