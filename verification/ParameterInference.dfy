/**
 Inferring the parameters of an extracted function: the symbols of a selection, without those
 it binds itself, divided by whether a binding is visible around the selection.
 */
module ParameterInference {
  import opened CodeUnits
  import opened LispLexer
  import opened LispScanner
  import opened LispTree
  import opened Sequences
  import opened Wrappers

  const SPECIAL := [
    "defun", "defmacro", "lambda", "let", "let*", "setq", "setf", "if", "when", "unless", "cond", "progn", "prog1", "prog2",
    "and", "or", "while", "catch", "throw", "unwind-protect", "condition-case", "save-excursion", "save-restriction", "quote", "function",
    "fn", "defn", "defn-", "defmacro-", "loop", "recur", "doseq", "dotimes", "for", "binding", "with-open", "letfn", "do", "case", "try",
    "finally", "nil", "t", "true", "false", "&optional", "&rest", "&key", "&aux", "&body", "&environment", "_"]

  predicate Spells(t: Text, s: string) {
    |t| == |s| && forall i | 0 <= i < |t| :: t[i] == s[i] as int
  }

  predicate IsOneOf(t: Text, names: seq<string>) {
    exists i | 0 <= i < |names| :: Spells(t, names[i])
  }

  predicate IsCandidate(v: Text) {
    !IsOneOf(v, SPECIAL) && SLASH !in v && (v == [] || (v[0] != COLON && v[0] != HASH && v[0] != DOT))
  }

  // ---------------------------------------------------------------- bindings

  datatype Issue = DestructuringMap | UnrecognizedBindingForm

  /** Names bound, and what could not be read, in the order it was met. */
  datatype Bindings = Bindings(bound: set<Text>, issues: seq<Issue>)

  function Both(a: Bindings, b: Bindings): Bindings {
    Bindings(a.bound + b.bound, a.issues + b.issues)
  }

  const NONE := Bindings({}, [])

  predicate IsList(o: Token) { o.value == [LPAREN] }

  predicate IsVector(o: Token) { o.value == [LBRACKET] }

  /** The siblings from the `n`-th on. */
  function Skip(f: Forest, n: nat): Forest
    decreases n
  {
    if n == 0 || f == Empty then f else Skip(f.rest, n - 1)
  }

  /** The pattern that is the first node of `f`, and all the patterns of `f`. */
  function Pattern(f: Forest, candidate: Text -> bool): Bindings
    decreases f, 0
  {
    match f
    case Empty => NONE
    case Atom(t, _) => if t.kind == SymbolToken && candidate(t.value) then Bindings({t.value}, []) else NONE
    case Group(o, c, _, _) => if IsList(o) || IsVector(o) then Patterns(c, candidate) else Bindings({}, [DestructuringMap])
  }

  function Patterns(f: Forest, candidate: Text -> bool): Bindings
    decreases f, 1
  {
    if f == Empty then NONE else Both(Pattern(f, candidate), Patterns(f.rest, candidate))
  }

  /** Every second pattern, from the first. */
  function EvenPatterns(f: Forest, candidate: Text -> bool): Bindings {
    match f
    case Empty => NONE
    case Atom(_, rest) => Both(Pattern(f, candidate), if rest == Empty then NONE else EvenPatterns(rest.rest, candidate))
    case Group(_, _, _, rest) => Both(Pattern(f, candidate), if rest == Empty then NONE else EvenPatterns(rest.rest, candidate))
  }

  function PairPatterns(f: Forest, candidate: Text -> bool): Bindings {
    match f
    case Empty => NONE
    case Atom(_, rest) => Both(Bindings({}, [UnrecognizedBindingForm]), PairPatterns(rest, candidate))
    case Group(o, c, _, rest) =>
      Both(if IsList(o) then Pattern(c, candidate) else Bindings({}, [UnrecognizedBindingForm]), PairPatterns(rest, candidate))
  }

  /** The bindings a node introduces, by the symbol it starts with. */
  function Introduced(o: Token, children: Forest, candidate: Text -> bool): Bindings {
    if !IsList(o) || !children.Atom? || children.token.kind != SymbolToken then NONE
    else
      var head := children.token.value;
      if IsOneOf(head, ["lambda", "fn"]) then Pattern(Skip(children, 1), candidate)
      else if IsOneOf(head, ["defun", "defmacro", "defn", "defn-", "defmacro-"]) then Pattern(Skip(children, 2), candidate)
      else if IsOneOf(head, ["let", "let*", "loop", "binding", "with-open", "doseq", "for"]) then
        var bindings := Skip(children, 1);
        if !bindings.Group? then NONE
        else if IsVector(bindings.opener) then EvenPatterns(bindings.children, candidate)
        else if IsList(bindings.opener) then PairPatterns(bindings.children, candidate)
        else NONE
      else NONE
  }

  function AlongPath(path: seq<Node>, candidate: Text -> bool): Bindings {
    if path == [] then NONE
    else Both(Introduced(path[0].opener, path[0].children, candidate), AlongPath(path[1..], candidate))
  }

  /** Everything bound anywhere inside the selection: one flat set, whatever the scopes. */
  function LocallyBound(f: Forest, candidate: Text -> bool): Bindings {
    match f
    case Empty => NONE
    case Atom(_, rest) => LocallyBound(rest, candidate)
    case Group(o, c, _, rest) => Both(Both(Introduced(o, c, candidate), LocallyBound(c, candidate)), LocallyBound(rest, candidate))
  }

  // ---------------------------------------------------------------- the symbols of a selection

  predicate Quotes(t: Token) {
    t.kind == DelimiterToken && (t.value == [APOSTROPHE] || t.value == [BACKQUOTE])
  }

  /** Where a node stands: first in a list, behind a quote, or elsewhere. */
  datatype Place = ListHead | Quoted | Elsewhere

  predicate IsEligible(t: Token, place: Place, local: set<Text>, candidate: Text -> bool) {
    t.kind == SymbolToken && candidate(t.value) && place == Elsewhere && t.value !in local
  }

  /** The occurrences that need a binding from outside, from left to right. */
  function Occurrences(f: Forest, place: Place, local: set<Text>, candidate: Text -> bool): seq<Text> {
    match f
    case Empty => []
    case Atom(t, rest) =>
      (if IsEligible(t, place, local, candidate) then [t.value] else [])
      + Occurrences(rest, if Quotes(t) then Quoted else Elsewhere, local, candidate)
    case Group(o, c, _, rest) =>
      Occurrences(c, if IsList(o) then ListHead else Elsewhere, local, candidate) + Occurrences(rest, Elsewhere, local, candidate)
  }

  /** A list without repetitions gets `x` at its end, unless it has it. */
  function Noted<T(==)>(xs: seq<T>, x: T): seq<T> {
    if x in xs then xs else xs + [x]
  }

  function NotedAll<T(==)>(xs: seq<T>, more: seq<T>): seq<T>
    decreases |more|
  {
    if more == [] then xs else NotedAll(Noted(xs, more[0]), more[1..])
  }

  function Only(xs: seq<Text>, among: set<Text>): seq<Text> {
    if xs == [] then [] else if xs[0] in among then [xs[0]] + Only(xs[1..], among) else Only(xs[1..], among)
  }

  function Without(xs: seq<Text>, among: set<Text>): seq<Text> {
    if xs == [] then [] else if xs[0] in among then Without(xs[1..], among) else [xs[0]] + Without(xs[1..], among)
  }

  /** The recursive walk: every eligible symbol goes to the end of one of two lists, the first time it comes. */
  method Walk(f: Forest, place: Place, local: set<Text>, visible: set<Text>, candidate: Text -> bool,
              parameters: seq<Text>, unresolved: seq<Text>)
    returns (parameters': seq<Text>, unresolved': seq<Text>)
    ensures parameters' == NotedAll(parameters, Only(Occurrences(f, place, local, candidate), visible))
    ensures unresolved' == NotedAll(unresolved, Without(Occurrences(f, place, local, candidate), visible))
    decreases f
  {
    parameters', unresolved' := parameters, unresolved;
    match f
    case Empty =>
    case Atom(t, rest) =>
      var next := if Quotes(t) then Quoted else Elsewhere;
      ghost var later := Occurrences(rest, next, local, candidate);
      if IsEligible(t, place, local, candidate) {
        assert ([t.value] + later)[1..] == later;
        if t.value in visible { parameters' := Noted(parameters, t.value); } else { unresolved' := Noted(unresolved, t.value); }
        OneFirst(t.value, later, visible);
        NotedFirst(parameters, t.value, Only(later, visible));
        NotedFirst(unresolved, t.value, Without(later, visible));
      } else {
        assert [] + later == later;
      }
      parameters', unresolved' := Walk(rest, next, local, visible, candidate, parameters', unresolved');
    case Group(o, c, _, rest) =>
      var inner := if IsList(o) then ListHead else Elsewhere;
      ghost var xs, ys := Occurrences(c, inner, local, candidate), Occurrences(rest, Elsewhere, local, candidate);
      parameters', unresolved' := Walk(c, inner, local, visible, candidate, parameters', unresolved');
      parameters', unresolved' := Walk(rest, Elsewhere, local, visible, candidate, parameters', unresolved');
      FilterConcat(xs, ys, visible);
      NotedConcat(parameters, Only(xs, visible), Only(ys, visible));
      NotedConcat(unresolved, Without(xs, visible), Without(ys, visible));
  }

  lemma {:induction false} OneFirst(x: Text, xs: seq<Text>, among: set<Text>)
    ensures Only([x] + xs, among) == (if x in among then [x] + Only(xs, among) else Only(xs, among))
    ensures Without([x] + xs, among) == (if x in among then Without(xs, among) else [x] + Without(xs, among))
  {
    assert ([x] + xs)[1..] == xs;
  }

  lemma {:induction false} NotedFirst<T>(xs: seq<T>, x: T, more: seq<T>)
    ensures NotedAll(xs, [x] + more) == NotedAll(Noted(xs, x), more)
  {
    assert ([x] + more)[1..] == more;
  }

  lemma {:induction false} Split<T>(xs: seq<T>, ys: seq<T>)
    requires xs != []
    ensures xs + ys == [xs[0]] + (xs[1..] + ys) && xs == [xs[0]] + xs[1..]
  {}

  lemma {:induction false} FilterConcat(xs: seq<Text>, ys: seq<Text>, among: set<Text>)
    ensures Only(xs + ys, among) == Only(xs, among) + Only(ys, among)
    ensures Without(xs + ys, among) == Without(xs, among) + Without(ys, among)
  {
    if xs == [] {
      assert xs + ys == ys && [] + Only(ys, among) == Only(ys, among) && [] + Without(ys, among) == Without(ys, among);
    } else {
      FilterConcat(xs[1..], ys, among);
      Split(xs, ys);
      OneFirst(xs[0], xs[1..] + ys, among);
      OneFirst(xs[0], xs[1..], among);
      Regroup([xs[0]], Only(xs[1..], among), Only(ys, among));
      Regroup([xs[0]], Without(xs[1..], among), Without(ys, among));
    }
  }

  lemma {:induction false} NotedConcat<T>(xs: seq<T>, a: seq<T>, b: seq<T>)
    ensures NotedAll(xs, a + b) == NotedAll(NotedAll(xs, a), b)
    decreases |a|
  {
    if a == [] {
      assert a + b == b;
    } else {
      NotedConcat(Noted(xs, a[0]), a[1..], b);
      assert (a + b)[1..] == a[1..] + b;
    }
  }

  // ---------------------------------------------------------------- first occurrences

  function FirstAt<T(==)>(xs: seq<T>, x: T): (i: nat)
    requires x in xs
    ensures i < |xs| && xs[i] == x
  {
    if xs[0] == x then 0 else 1 + FirstAt(xs[1..], x)
  }

  /** The elements of `xs`, each once, in the order in which they first occur. */
  ghost predicate FirstOccurrences<T>(d: seq<T>, xs: seq<T>) {
    && (forall i | 0 <= i < |d| :: d[i] in xs) && (forall i | 0 <= i < |xs| :: xs[i] in d)
    && forall i, j | 0 <= i < j < |d| :: FirstAt(xs, d[i]) < FirstAt(xs, d[j])
  }

  lemma {:induction false} FirstAtAppend<T>(xs: seq<T>, y: T, x: T)
    requires x in xs + [y]
    ensures FirstAt(xs + [y], x) == if x in xs then FirstAt(xs, x) else |xs|
  {
    if xs != [] && xs[0] != x {
      assert (xs + [y])[1..] == xs[1..] + [y] && xs == [xs[0]] + xs[1..];
      FirstAtAppend(xs[1..], y, x);
    }
  }

  lemma {:induction false} NotingOneMore<T>(d: seq<T>, xs: seq<T>, y: T)
    requires FirstOccurrences(d, xs)
    ensures FirstOccurrences(Noted(d, y), xs + [y])
  {
    var more, all := Noted(d, y), xs + [y];
    forall i | 0 <= i < |more| ensures more[i] in all { if i < |d| { assert d[i] in xs; } }
    forall i | 0 <= i < |all| ensures all[i] in more { if i < |xs| { assert xs[i] in d; } }
    forall i, j | 0 <= i < j < |more| ensures FirstAt(all, more[i]) < FirstAt(all, more[j]) {
      FirstAtAppend(xs, y, more[i]);
      FirstAtAppend(xs, y, more[j]);
      assert more[i] == d[i] && d[i] in xs;
      if j < |d| { assert d[j] in xs; }
    }
  }

  lemma {:induction false} NotedInOrder<T>(xs: seq<T>)
    ensures FirstOccurrences(NotedAll([], xs), xs)
  {
    if xs != [] {
      var front, last := xs[..|xs| - 1], xs[|xs| - 1];
      NotedInOrder(front);
      assert xs == front + [last];
      NotedConcat([], front, [last]);
      assert [last][1..] == [];
      NotingOneMore(NotedAll([], front), front, last);
    }
  }

  lemma {:induction false} FilterMeans(xs: seq<Text>, among: set<Text>, v: Text)
    ensures v in Only(xs, among) <==> v in xs && v in among
    ensures v in Without(xs, among) <==> v in xs && v !in among
  {
    if xs != [] {
      FilterMeans(xs[1..], among, v);
      assert xs == [xs[0]] + xs[1..];
    }
  }

  // ---------------------------------------------------------------- the whole inference

  datatype Confidence = High | Medium | Low

  datatype Inference =
    | Inferred(parameters: seq<Text>, unresolvedSymbols: seq<Text>, issues: seq<Issue>, confidence: Confidence)
    | InvalidBounds

  function IssueName(i: Issue): Text {
    if i.DestructuringMap? then Ascii("destructuring-map") else Ascii("unrecognized-binding-form")
  }

  /** Issues are reported behind the unresolved symbols, unless a symbol has the same name. */
  function Reported(issues: seq<Issue>, symbols: seq<Text>): seq<Issue> {
    if issues == [] then []
    else (if IssueName(issues[0]) in symbols then [] else [issues[0]]) + Reported(issues[1..], symbols)
  }

  predicate IsSelected(t: Token, start: nat, end: nat) {
    start <= t.start && t.end <= end
  }

  function Selected(tokens: seq<Token>, start: nat, end: nat): seq<Token> {
    if tokens == [] then []
    else if IsSelected(tokens[0], start, end) then [tokens[0]] + Selected(tokens[1..], start, end) else Selected(tokens[1..], start, end)
  }

  /** The bindings around the selection; the root introduces none. */
  function VisibleAt(tokens: seq<Token>, start: nat, end: nat, candidate: Text -> bool): Bindings {
    var path := FindContainingPath(Build(tokens), if tokens == [] then 0 else tokens[|tokens| - 1].end, start, end);
    AlongPath(if path.Some? then path.value else [], candidate)
  }

  /** The eligible occurrences of a selection. */
  function Eligible(tokens: seq<Token>, start: nat, end: nat): seq<Text> {
    var selection := Build(Selected(tokens, start, end));
    Occurrences(selection, Elsewhere, LocallyBound(selection, IsCandidate).bound, IsCandidate)
  }

  /** The issues met around the selection and inside it, each once. */
  function IssuesOf(tokens: seq<Token>, start: nat, end: nat): seq<Issue> {
    var inside := LocallyBound(Build(Selected(tokens, start, end)), IsCandidate);
    NotedAll([], VisibleAt(tokens, start, end, IsCandidate).issues + inside.issues)
  }

  /** The eligible occurrences are divided by what is visible or known, and the issues reported. */
  ghost predicate Explains(r: Inference, tokens: seq<Token>, start: nat, end: nat, known: set<Text>)
    requires r.Inferred?
  {
    && Divides(r.parameters, r.unresolvedSymbols, Eligible(tokens, start, end), VisibleAt(tokens, start, end, IsCandidate).bound + known)
    && r.issues == Reported(IssuesOf(tokens, start, end), r.unresolvedSymbols)
  }

  /**
   inferExtractParameters: every eligible symbol of the selection is either a parameter, when a
   binding is visible or known, or unresolved; both in the order in which they first occur.
   */
  method InferExtractParameters(source: Text, start: int, end: int, known: set<Text>) returns (r: Inference)
    ensures r.InvalidBounds? <==> !(0 <= start <= end <= |source|)
    ensures r.Inferred? ==> 0 <= start <= end && Explains(r, Tokens(Lex(source), 0, false), start, end, known)
    ensures r.Inferred? ==>
              && (r.confidence == High <==> r.unresolvedSymbols == [] && r.issues == [] && Diagnostics(Lex(source), 0) == [])
              && (r.confidence == Low <==> r.confidence != High && r.parameters == [])
  {
    if start < 0 || end < start || end > |source| { return InvalidBounds; }
    var tokens, diagnostics := ScanLisp(source, false);
    var around := VisibleAt(tokens, start, end, IsCandidate);
    var visible := around.bound + known;
    var selection, selectionEnd := BuildTree(Selected(tokens, start, end));
    var local := LocallyBound(selection, IsCandidate);
    var parameters, symbols := Walk(selection, Elsewhere, local.bound, visible, IsCandidate, [], []);
    DividesOccurrences(Eligible(tokens, start, end), visible, parameters, symbols);
    var issues := Reported(NotedAll([], around.issues + local.issues), symbols);
    var confidence := if symbols == [] && issues == [] && diagnostics == [] then High else if parameters != [] then Medium else Low;
    r := Inferred(parameters, symbols, issues, confidence);
  }

  /** Two lists in order of first occurrence that share out the occurrences: the visible ones and the others. */
  ghost predicate Divides(parameters: seq<Text>, unresolved: seq<Text>, occurrences: seq<Text>, visible: set<Text>) {
    && FirstOccurrences(parameters, Only(occurrences, visible)) && FirstOccurrences(unresolved, Without(occurrences, visible))
    && forall v | v in occurrences :: (v in parameters <==> v in visible) && (v in unresolved <==> v !in visible)
  }

  lemma {:induction false} DividesOccurrences(occurrences: seq<Text>, visible: set<Text>, parameters: seq<Text>, unresolved: seq<Text>)
    requires parameters == NotedAll([], Only(occurrences, visible)) && unresolved == NotedAll([], Without(occurrences, visible))
    ensures Divides(parameters, unresolved, occurrences, visible)
  {
    NotedInOrder(Only(occurrences, visible));
    NotedInOrder(Without(occurrences, visible));
    forall v | v in occurrences ensures (v in parameters <==> v in visible) && (v in unresolved <==> v !in visible) {
      FilterMeans(occurrences, visible, v);
      SameElements(parameters, Only(occurrences, visible), v);
      SameElements(unresolved, Without(occurrences, visible), v);
    }
  }

  lemma {:induction false} SameElements<T>(d: seq<T>, xs: seq<T>, v: T)
    requires FirstOccurrences(d, xs)
    ensures v in d <==> v in xs
  {}
}
