/**
 Project rename plans: building the edits, checking a plan, splicing the edits into the
 texts, and writing all files or none.
 `digest` stands for SHA-256 of a text and `seal` for SHA-256 of a plan body's canonical JSON.
 */
module ProjectRename {
  import opened CodeUnits
  import opened LispLexer
  import opened LispScanner
  import opened RenameLexing
  import opened RenameText
  import opened SymbolSemantics
  import opened Sequences
  import opened Wrappers

  datatype Edit = Edit(start: int, end: int, line: int, column: int, oldText: Text, newText: Text)

  datatype FileEdits = FileEdits(path: Text, digest: Text, bytes: nat, edits: seq<Edit>, diagnostics: seq<Diagnostic>)

  datatype Limits = Limits(maxFiles: nat, maxBytes: nat, maxEdits: nat)

  datatype PlanBody = PlanBody(
    version: int, kind: Text, root: Text, language: Language, policy: Policy, oldSymbol: Text, requestedNewSymbol: Text,
    newSymbol: Text, current: Descriptor, target: Descriptor, files: seq<FileEdits>, totalEdits: nat, limits: Limits)

  datatype Plan = Plan(body: PlanBody, planId: Text)

  function PlanKind(): Text { Ascii("lisp_project_rename") }

  // ---------------------------------------------------------------- splicing

  /** Sorted and non-overlapping, each taking up some room. */
  predicate Ascending(edits: seq<Edit>) {
    && (forall k | 0 <= k < |edits| :: 0 <= edits[k].start < edits[k].end)
    && (forall k | 0 < k < |edits| :: edits[k - 1].end <= edits[k].start)
  }

  /** Sorted and non-overlapping, with something to replace. */
  predicate Disjoint(edits: seq<Edit>) {
    Ascending(edits) && forall k | 0 <= k < |edits| :: edits[k].oldText != []
  }

  predicate Matches(content: Text, edit: Edit)
    requires 0 <= edit.start && 0 <= edit.end
  {
    Slice(content, edit.start, edit.end) == edit.oldText
  }

  ghost predicate AllMatch(content: Text, edits: seq<Edit>)
    requires Disjoint(edits)
  {
    forall k | 0 <= k < |edits| :: Matches(content, edits[k])
  }

  function Clamp(t: Text, at: nat): (r: nat)
    ensures r <= |t|
  {
    if at <= |t| then at else |t|
  }

  /** An edit that matches begins inside the text; only the last one may reach behind its end. */
  lemma {:induction false} MatchingStarts(content: Text, edits: seq<Edit>)
    requires Disjoint(edits) && AllMatch(content, edits)
    ensures forall k | 0 <= k < |edits| :: edits[k].start < |content|
    ensures forall k | 0 <= k < |edits| - 1 :: edits[k].end < |content|
  {
    forall k | 0 <= k < |edits| ensures edits[k].start < |content| {
      assert Matches(content, edits[k]);
    }
    forall k | 0 <= k < |edits| - 1 ensures edits[k].end < |content| {
      assert edits[k + 1].start < |content|;
    }
  }

  /** All edits at once, each where it stands in the text as it was: the reference for splicing. */
  ghost function Substitute(content: Text, edits: seq<Edit>, from: nat): Text
    requires Disjoint(edits) && AllMatch(content, edits)
    requires from <= |content| && (edits != [] ==> from <= edits[0].start)
    decreases |edits|
  {
    if edits == [] then content[from..]
    else
      MatchingStarts(content, edits);
      var e := edits[0];
      content[from..e.start] + (e.newText + Substitute(content, edits[1..], Clamp(content, e.end)))
  }

  /** What stands in front of the first edit is copied. */
  lemma {:induction false} SubstituteFrom(content: Text, edits: seq<Edit>, from: nat, to: nat)
    requires Disjoint(edits) && AllMatch(content, edits)
    requires from <= to <= |content| && (edits != [] ==> to <= edits[0].start)
    ensures Substitute(content, edits, from) == content[from..to] + Substitute(content, edits, to)
  {
    if edits == [] {
      assert content[from..] == content[from..to] + content[to..];
    } else {
      MatchingStarts(content, edits);
      var s := edits[0].start;
      assert content[from..s] == content[from..to] + content[to..s];
      Regroup(content[from..to], content[to..s], edits[0].newText + Substitute(content, edits[1..], Clamp(content, edits[0].end)));
    }
  }

  /** Replacing one more edit to the left of those done does what doing it first would have done. */
  lemma {:induction false} SpliceOne(content: Text, edits: seq<Edit>, result: Text)
    requires edits != [] && Disjoint(edits) && AllMatch(content, edits[1..])
    requires result == Substitute(content, edits[1..], 0)
    ensures Matches(result, edits[0]) <==> Matches(content, edits[0])
    ensures Matches(content, edits[0]) ==>
              AllMatch(content, edits)
              && Slice(result, 0, edits[0].start) + edits[0].newText + Slice(result, edits[0].end, |result|)
                 == Substitute(content, edits, 0)
  {
    var e, rest := edits[0], edits[1..];
    FrontKept(content, rest, e.end);
    assert Slice(result, e.start, e.end) == Slice(content, e.start, e.end);
    if Matches(content, e) { SpliceMatching(content, edits, result); }
  }

  /** Substituting behind `to` leaves the text up to there as it is. */
  lemma {:induction false} FrontKept(content: Text, edits: seq<Edit>, to: nat)
    requires Disjoint(edits) && AllMatch(content, edits) && (edits != [] ==> to <= edits[0].start)
    ensures var result := Substitute(content, edits, 0);
            && (to <= |content| ==> to <= |result| && result[..to] == content[..to] && result[to..] == Substitute(content, edits, to))
            && (to > |content| ==> result == content)
  {
    if edits != [] { MatchingStarts(content, edits); }
    if to <= |content| {
      SubstituteFrom(content, edits, 0, to);
      var result := Substitute(content, edits, 0);
      assert content[0..to] == content[..to];
      assert result[..to] == content[..to];
    } else {
      assert content[0..] == content;
    }
  }

  lemma {:induction false} SpliceMatching(content: Text, edits: seq<Edit>, result: Text)
    requires edits != [] && Disjoint(edits) && AllMatch(content, edits[1..]) && Matches(content, edits[0])
    requires result == Substitute(content, edits[1..], 0)
    ensures AllMatch(content, edits)
    ensures Slice(result, 0, edits[0].start) + edits[0].newText + Slice(result, edits[0].end, |result|) == Substitute(content, edits, 0)
  {
    var e, rest := edits[0], edits[1..];
    AllMatchMore(content, edits);
    MatchingStarts(content, edits);
    var front, back := content[0..e.start], Substitute(content, rest, Clamp(content, e.end));
    assert Slice(result, 0, e.start) == front by { FrontKept(content, rest, e.start); }
    assert Slice(result, e.end, |result|) == back by { BackKept(content, rest, e.end); }
    Regroup(front, e.newText, back);
  }

  lemma {:induction false} BackKept(content: Text, edits: seq<Edit>, to: nat)
    requires Disjoint(edits) && AllMatch(content, edits) && (edits != [] ==> to <= edits[0].start)
    ensures var result := Substitute(content, edits, 0);
            Slice(result, to, |result|) == Substitute(content, edits, Clamp(content, to))
  {
    if edits != [] { MatchingStarts(content, edits); }
    FrontKept(content, edits, to);
    if to > |content| {
      assert content[|content|..] == [];
    }
  }

  /** Where an edit list sorted by descending start takes a further edit: in front of its equals. */
  function InsertDescending(e: Edit, sorted: seq<Edit>): seq<Edit> {
    if sorted == [] || sorted[0].start <= e.start then [e] + sorted else [sorted[0]] + InsertDescending(e, sorted[1..])
  }

  /** The stable sort by descending start. */
  function ByStartDescending(edits: seq<Edit>): seq<Edit> {
    if edits == [] then [] else InsertDescending(edits[0], ByStartDescending(edits[1..]))
  }

  lemma {:induction false} InsertSmallest(e: Edit, sorted: seq<Edit>)
    requires forall x | x in sorted :: x.start > e.start
    ensures InsertDescending(e, sorted) == sorted + [e]
  {
    if sorted != [] { InsertSmallest(e, sorted[1..]); }
  }

  lemma {:induction false} StartsIncrease(edits: seq<Edit>, k: nat)
    requires Ascending(edits) && 0 < k < |edits|
    ensures edits[0].start < edits[k].start
  {
    if k > 1 { StartsIncrease(edits, k - 1); }
  }

  /** `sorted` is `edits` turned round. */
  ghost predicate TurnedRound(sorted: seq<Edit>, edits: seq<Edit>) {
    |sorted| == |edits| && forall k | 0 <= k < |edits| :: sorted[k] == edits[|edits| - 1 - k]
  }

  lemma {:induction false} AllLarger(edits: seq<Edit>, sorted: seq<Edit>)
    requires edits != [] && Ascending(edits) && TurnedRound(sorted, edits[1..])
    ensures forall x | x in sorted :: x.start > edits[0].start
  {
    forall x | x in sorted ensures x.start > edits[0].start {
      var k: nat :| k < |sorted| && sorted[k] == x;
      assert sorted[k] == edits[1..][|sorted| - 1 - k];
      StartsIncrease(edits, |sorted| - k);
    }
  }

  lemma {:induction false} TurnedRoundOneMore(edits: seq<Edit>, sorted: seq<Edit>)
    requires edits != [] && TurnedRound(sorted, edits[1..])
    ensures TurnedRound(sorted + [edits[0]], edits)
  {
    forall k | 0 <= k < |edits| ensures (sorted + [edits[0]])[k] == edits[|edits| - 1 - k] {
      if k < |sorted| { assert sorted[k] == edits[1..][|sorted| - 1 - k]; }
    }
  }

  /** Sorting non-overlapping edits by descending start turns them round. */
  lemma {:induction false} DescendingIsReversed(edits: seq<Edit>)
    requires Ascending(edits)
    ensures TurnedRound(ByStartDescending(edits), edits)
  {
    if edits != [] {
      var sorted := ByStartDescending(edits[1..]);
      DescendingIsReversed(edits[1..]);
      AllLarger(edits, sorted);
      InsertSmallest(edits[0], sorted);
      TurnedRoundOneMore(edits, sorted);
    }
  }

  // ---------------------------------------------------------------- right to left

  function Spliced(t: Text, e: Edit): Text
    requires 0 <= e.start < e.end
  {
    Slice(t, 0, e.start) + e.newText + Slice(t, e.end, |t|)
  }

  /** One edit after the other from the last to the first; None as soon as one does not find its old text. */
  function SpliceAll(content: Text, edits: seq<Edit>): Option<Text>
    requires Ascending(edits)
  {
    if edits == [] then Some(content)
    else
      var rest := SpliceAll(content, edits[1..]);
      if rest.None? || Slice(rest.value, edits[0].start, edits[0].end) != edits[0].oldText then None
      else Some(Spliced(rest.value, edits[0]))
  }

  /** What splicing is compared with: all edits at once, when all of them match. */
  ghost predicate AtOnceOrNot(content: Text, edits: seq<Edit>)
    requires Disjoint(edits)
  {
    && (SpliceAll(content, edits).Some? <==> AllMatch(content, edits))
    && (AllMatch(content, edits) ==> SpliceAll(content, edits) == Some(Substitute(content, edits, 0)))
  }

  lemma {:induction false} SpliceMatchingRest(content: Text, edits: seq<Edit>)
    requires edits != [] && Disjoint(edits) && AllMatch(content, edits[1..])
    requires SpliceAll(content, edits[1..]) == Some(Substitute(content, edits[1..], 0))
    ensures AtOnceOrNot(content, edits)
  {
    var result := Substitute(content, edits[1..], 0);
    SpliceOne(content, edits, result);
    if AllMatch(content, edits) { assert Matches(content, edits[0]); }
  }

  /** Splicing right to left is replacing everything at once, and fails exactly when something does not match. */
  lemma {:induction false} SpliceIsSubstitute(content: Text, edits: seq<Edit>)
    requires Disjoint(edits)
    ensures AtOnceOrNot(content, edits)
  {
    if edits == [] {
      assert content[0..] == content;
    } else {
      SpliceIsSubstitute(content, edits[1..]);
      if AllMatch(content, edits[1..]) {
        SpliceMatchingRest(content, edits);
      } else if AllMatch(content, edits) {
        AllMatchRest(content, edits);
        assert false;
      }
    }
  }

  lemma {:induction false} AllMatchRest(content: Text, edits: seq<Edit>)
    requires edits != [] && Disjoint(edits) && AllMatch(content, edits)
    ensures AllMatch(content, edits[1..])
  {
    forall k | 0 <= k < |edits[1..]| ensures Matches(content, edits[1..][k]) {
      assert Matches(content, edits[k + 1]);
    }
  }

  /** A splicing that fails on the way fails. */
  lemma {:induction false} SpliceFails(content: Text, edits: seq<Edit>, at: nat)
    requires Ascending(edits) && at <= |edits| && SpliceAll(content, edits[at..]).None?
    ensures SpliceAll(content, edits).None?
    decreases at
  {
    if at == 0 {
      assert edits[0..] == edits;
    } else {
      assert edits[at - 1..][1..] == edits[at..];
      SpliceFails(content, edits, at - 1);
    }
  }

  /** Copies of `t` side by side. */
  function Copies(t: Text, n: nat): Text {
    if n == 0 then [] else Copies(t, n - 1) + t
  }

  /** Edits of nothing find it only behind the end of the text, so that applying them appends. */
  lemma {:induction false} EmptyEditsAppend(content: Text, edits: seq<Edit>, added: Text)
    requires Ascending(edits) && forall k | 0 <= k < |edits| :: edits[k].oldText == [] && edits[k].newText == added
    ensures SpliceAll(content, edits).Some? ==> SpliceAll(content, edits).value == content + Copies(added, |edits|)
  {
    if edits != [] && SpliceAll(content, edits).Some? {
      EmptyEditsAppend(content, edits[1..], added);
      EmptyEditAppends(SpliceAll(content, edits[1..]).value, edits[0]);
      Regroup(content, Copies(added, |edits| - 1), added);
    }
  }

  lemma {:induction false} EmptyEditAppends(t: Text, e: Edit)
    requires 0 <= e.start < e.end && Slice(t, e.start, e.end) == []
    ensures Spliced(t, e) == t + e.newText
  {
    assert e.start >= |t|;
  }

  datatype ApplyResult = Applied(text: Text) | StaleFile | StaleEdit(index: nat)

  /** What applying the edits of a file must do. */
  ghost predicate AppliesEdits(content: Text, file: FileEdits, digest: Text -> Text, r: ApplyResult)
    requires Ascending(file.edits)
  {
    && (r.StaleFile? <==> digest(content) != file.digest)
    && (r.Applied? <==> digest(content) == file.digest && SpliceAll(content, file.edits).Some?)
    && (r.Applied? ==> Some(r.text) == SpliceAll(content, file.edits))
    && (r.StaleEdit? ==>
          && r.index < |file.edits| && SpliceAll(content, file.edits[r.index..]).None?
          && SpliceAll(content, file.edits[r.index + 1..]).Some?)
  }

  /** For edits that replace something: all old texts in place, and all of them replaced at once. */
  ghost predicate AppliesAtOnce(content: Text, file: FileEdits, digest: Text -> Text, r: ApplyResult)
    requires Disjoint(file.edits)
  {
    && (r.Applied? <==> digest(content) == file.digest && AllMatch(content, file.edits))
    && (r.Applied? ==> r.text == Substitute(content, file.edits, 0))
    && (r.StaleEdit? ==>
          && r.index < |file.edits| && !Matches(content, file.edits[r.index])
          && AllMatch(content, file.edits[r.index + 1..]))
  }

  lemma {:induction false} AllMatchMore(content: Text, edits: seq<Edit>)
    requires edits != [] && Disjoint(edits) && AllMatch(content, edits[1..]) && Matches(content, edits[0])
    ensures AllMatch(content, edits)
  {
    forall k | 0 <= k < |edits| ensures Matches(content, edits[k]) {
      if k > 0 { assert edits[k] == edits[1..][k - 1]; }
    }
  }

  lemma {:induction false} StaleFirst(content: Text, edits: seq<Edit>)
    requires edits != [] && Disjoint(edits) && SpliceAll(content, edits).None? && SpliceAll(content, edits[1..]).Some?
    ensures !Matches(content, edits[0]) && AllMatch(content, edits[1..])
  {
    SpliceIsSubstitute(content, edits[1..]);
    SpliceIsSubstitute(content, edits);
    if Matches(content, edits[0]) { AllMatchMore(content, edits); }
  }

  /** The edit reported as stale is the rightmost one that does not match the text as it was. */
  lemma {:induction false} StaleIsRightmost(content: Text, edits: seq<Edit>, at: nat)
    requires Disjoint(edits) && at < |edits|
    requires SpliceAll(content, edits[at..]).None? && SpliceAll(content, edits[at + 1..]).Some?
    ensures !Matches(content, edits[at]) && AllMatch(content, edits[at + 1..])
  {
    var here := edits[at..];
    assert here[1..] == edits[at + 1..] && here[0] == edits[at];
    StaleFirst(content, here);
  }

  lemma {:induction false} AtOnce(content: Text, file: FileEdits, digest: Text -> Text, r: ApplyResult)
    requires Disjoint(file.edits) && AppliesEdits(content, file, digest, r)
    ensures AppliesAtOnce(content, file, digest, r)
  {
    SpliceIsSubstitute(content, file.edits);
    if r.StaleEdit? { StaleIsRightmost(content, file.edits, r.index); }
  }

  /** One turn of the splicing loop, seen from the list as a whole. */
  lemma {:induction false} SpliceAt(content: Text, edits: seq<Edit>, at: nat, result: Text)
    requires Ascending(edits) && at < |edits| && SpliceAll(content, edits[at + 1..]) == Some(result)
    ensures SpliceAll(content, edits[at..])
         == if Slice(result, edits[at].start, edits[at].end) == edits[at].oldText then Some(Spliced(result, edits[at])) else None
  {
    assert edits[at..][1..] == edits[at + 1..] && edits[at..][0] == edits[at];
  }

  /**
   applyEdits: right-to-left splicing. For edits that replace something it succeeds exactly when
   the content is the planned one and every edit finds its old text, and then it equals
   replacing all of them at once.
   */
  method ApplyEdits(content: Text, file: FileEdits, digest: Text -> Text) returns (r: ApplyResult)
    requires Ascending(file.edits)
    ensures AppliesEdits(content, file, digest, r)
    ensures Disjoint(file.edits) ==> AppliesAtOnce(content, file, digest, r)
  {
    if digest(content) != file.digest {
      r := StaleFile;
    } else {
      r := SpliceDescending(content, file.edits);
    }
    if Disjoint(file.edits) { AtOnce(content, file, digest, r); }
  }

  /** The splicing loop. */
  method SpliceDescending(content: Text, edits: seq<Edit>) returns (r: ApplyResult)
    requires Ascending(edits)
    ensures !r.StaleFile? && (r.Applied? <==> SpliceAll(content, edits).Some?)
    ensures r.Applied? ==> Some(r.text) == SpliceAll(content, edits)
    ensures r.StaleEdit? ==>
              && r.index < |edits| && SpliceAll(content, edits[r.index..]).None? && SpliceAll(content, edits[r.index + 1..]).Some?
  {
    var order := ByStartDescending(edits);
    DescendingIsReversed(edits);
    var result := content;
    for j := 0 to |order|
      invariant SpliceAll(content, edits[|edits| - j..]) == Some(result)
    {
      var edit := order[j];
      ghost var at := |edits| - 1 - j;
      SpliceAt(content, edits, at, result);
      if Slice(result, edit.start, edit.end) != edit.oldText {
        SpliceFails(content, edits, at);
        return StaleEdit(|edits| - 1 - j);
      }
      result := Slice(result, 0, edit.start) + edit.newText + Slice(result, edit.end, |result|);
    }
    assert edits[0..] == edits;
    return Applied(result);
  }

  // ---------------------------------------------------------------- the edits of a renaming

  function EditAt(content: Text, start: nat, end: nat, ren: Renaming): Edit {
    var (line, column) := PositionAfter(Slice(content, 0, start));
    Edit(start, end, line, column, ren.from, ren.to)
  }

  /** The edits editsFor makes of a token list. */
  function EditsOf(content: Text, tokens: seq<Token>, ren: Renaming): seq<Edit> {
    if tokens == [] then []
    else
      (if IsOccurrenceToken(tokens[0], ren) then [EditAt(content, tokens[0].start, tokens[0].end, ren)] else [])
      + EditsOf(content, tokens[1..], ren)
  }

  /** The edits of a whole text. */
  function EditsIn(content: Text, ren: Renaming): seq<Edit> {
    EditsOf(content, Tokens(Lex(content), 0, false), ren)
  }

  lemma {:induction false} TokensWithin(ls: seq<Lexeme>, at: nat, trivia: bool, i: nat)
    requires i < |Tokens(ls, at, trivia)|
    ensures Tokens(ls, at, trivia)[i].start <= at + |Flatten(ls)|
    decreases |ls|
  {
    var head := TokenOf(ls[0], at, trivia);
    if i >= |head| { TokensWithin(ls[1..], at + |ls[0].text|, trivia, i - |head|); }
  }

  lemma {:induction false} OneMoreToken(content: Text, tokens: seq<Token>, k: nat, ren: Renaming, edits: seq<Edit>)
    requires k < |tokens|
    ensures edits + EditsOf(content, tokens[k..], ren)
         == (if IsOccurrenceToken(tokens[k], ren) then edits + [EditAt(content, tokens[k].start, tokens[k].end, ren)] else edits)
            + EditsOf(content, tokens[k + 1..], ren)
  {
    assert tokens[k..][1..] == tokens[k + 1..] && tokens[k..][0] == tokens[k];
    var more := if IsOccurrenceToken(tokens[k], ren) then [EditAt(content, tokens[k].start, tokens[k].end, ren)] else [];
    Regroup(edits, more, EditsOf(content, tokens[k + 1..], ren));
  }

  /** editsFor: one edit for every symbol token that is the old name, with its line and column. */
  method EditsFor(content: Text, ren: Renaming) returns (edits: seq<Edit>, diagnostics: seq<Diagnostic>)
    ensures edits == EditsIn(content, ren)
    ensures diagnostics == Diagnostics(Lex(content), 0)
  {
    var tokens;
    tokens, diagnostics := ScanLisp(content, false);
    edits := [];
    for k := 0 to |tokens|
      invariant edits + EditsOf(content, tokens[k..], ren) == EditsIn(content, ren)
    {
      var token := tokens[k];
      OneMoreToken(content, tokens, k, ren, edits);
      if IsOccurrenceToken(token, ren) {
        FlattenLex(content);
        TokensWithin(Lex(content), 0, false, k);
        var line, column := PositionFor(content, token.start);
        edits := edits + [Edit(token.start, token.end, line, column, ren.from, ren.to)];
      }
    }
  }

  /** The edits behind position `at` are disjoint, in order, and start there or later. */
  ghost predicate EditsFrom(edits: seq<Edit>, at: nat) {
    Disjoint(edits) && (edits != [] ==> at <= edits[0].start)
  }

  lemma {:induction false} EditsSplit(content: Text, x: Lexeme, rest: seq<Token>, at: nat, ren: Renaming)
    ensures EditsOf(content, TokenOf(x, at, false) + rest, ren)
         == (if IsOccurrence(x, ren) then [EditAt(content, at, at + |x.text|, ren)] else []) + EditsOf(content, rest, ren)
  {
    var head := TokenOf(x, at, false);
    if head == [] { assert head + rest == rest; } else { assert (head + rest)[1..] == rest; }
  }

  /** `edits` stand in `content` from `at` on, and substituting them there gives `out`. */
  ghost predicate Gives(content: Text, edits: seq<Edit>, at: nat, out: Text) {
    && at <= |content| && EditsFrom(edits, at) && AllMatch(content, edits)
    && Substitute(content, edits, at) == out
  }

  lemma {:induction false} GivesWithEdit(content: Text, e: Edit, rest: seq<Edit>, out: Text)
    requires 0 <= e.start < e.end <= |content| && e.oldText != [] && Matches(content, e)
    requires Gives(content, rest, e.end, out)
    ensures Gives(content, [e] + rest, e.start, e.newText + out)
  {
    var edits := [e] + rest;
    assert edits[1..] == rest;
    assert Disjoint(edits) && AllMatch(content, edits);
    assert content[e.start..e.start] == [];
  }

  /** Substituting the edits of a lexeme list behind the prefix `p` is renaming its lexemes. */
  lemma {:induction false} EditsRename(content: Text, p: Text, ls: seq<Lexeme>, ren: Renaming)
    requires NoneEmpty(ls) && content == p + Flatten(ls)
    ensures Gives(content, EditsOf(content, Tokens(ls, |p|, false), ren), |p|, Flatten(Rename(ls, ren)))
    decreases |ls|
  {
    if ls != [] {
      var p2 := p + ls[0].text;
      LexemeParts(content, p, p2, ls, ren);
      var rest, out := EditsOf(content, Tokens(ls[1..], |p2|, false), ren), Flatten(Rename(ls[1..], ren));
      EditsRename(content, p2, ls[1..], ren);
      OneMoreLexeme(content, ls[0], |p|, |p2|, ren, rest, out);
    }
  }

  lemma {:induction false} LexemeParts(content: Text, p: Text, p2: Text, ls: seq<Lexeme>, ren: Renaming)
    requires ls != [] && p2 == p + ls[0].text && content == p + Flatten(ls)
    ensures content == p2 + Flatten(ls[1..]) && content[|p|..|p2|] == ls[0].text
    ensures Flatten(Rename(ls, ren)) == RenameOne(ls[0], ren).text + Flatten(Rename(ls[1..], ren))
    ensures EditsOf(content, Tokens(ls, |p|, false), ren)
         == (if IsOccurrence(ls[0], ren) then [EditAt(content, |p|, |p2|, ren)] else [])
            + EditsOf(content, Tokens(ls[1..], |p2|, false), ren)
  {
    ShiftPrefix(p, ls);
    EditsSplit(content, ls[0], Tokens(ls[1..], |p2|, false), |p|, ren);
    assert Rename(ls, ren)[1..] == Rename(ls[1..], ren);
  }

  lemma {:induction false} OneMoreLexeme(content: Text, x: Lexeme, at: nat, next: nat, ren: Renaming, rest: seq<Edit>, out: Text)
    requires x.text != [] && next == at + |x.text| && Gives(content, rest, next, out) && content[at..next] == x.text
    ensures Gives(content, (if IsOccurrence(x, ren) then [EditAt(content, at, next, ren)] else []) + rest, at,
                  RenameOne(x, ren).text + out)
  {
    if IsOccurrence(x, ren) {
      GivesWithEdit(content, EditAt(content, at, next, ren), rest, out);
    } else {
      assert [] + rest == rest;
      GivesEarlier(content, rest, next, at, out);
    }
  }

  lemma {:induction false} GivesEarlier(content: Text, edits: seq<Edit>, at: nat, before: nat, out: Text)
    requires Gives(content, edits, at, out) && before <= at
    ensures Gives(content, edits, before, content[before..at] + out)
  {
    SubstituteFrom(content, edits, before, at);
  }

  /** The plan made for a text is never stale on it, and applying it renames the text. */
  lemma {:induction false} EditsForRename(content: Text, ren: Renaming)
    ensures var edits := EditsIn(content, ren);
            Disjoint(edits) && AllMatch(content, edits) && Substitute(content, edits, 0) == Renamed(content, ren)
  {
    LexIsWellCut(content);
    WellCutNoneEmpty(Lex(content));
    FlattenLex(content);
    assert [] + Flatten(Lex(content)) == content;
    EditsRename(content, [], Lex(content), ren);
  }

  // ---------------------------------------------------------------- plans

  datatype SourceFile = SourceFile(path: Text, content: Text)

  datatype PlanError =
    | SymbolsRejected(error: RenameError) | TooManyFiles | TooManyBytes | TooManyEdits | OutsideRoot

  datatype PlanResult = Planned(plan: Plan) | NotPlanned(error: PlanError)

  /** What the rest of the program knows about texts and paths. */
  datatype Host = Host(
    upper: Text -> Text, digest: Text -> Text, seal: PlanBody -> Text, bytes: Text -> nat,
    relative: (Text, Text) -> Option<Text>, upTo: (Text, Text) -> bool)

  function FileEditsOf(file: SourceFile, root: Text, ren: Renaming, host: Host): seq<FileEdits>
  {
    var edits := EditsIn(file.content, ren);
    var path := host.relative(root, file.path);
    if edits == [] || path.None? then []
    else [FileEdits(path.value, host.digest(file.content), host.bytes(file.content), edits, Diagnostics(Lex(file.content), 0))]
  }

  /** The planned part of the files: those with at least one occurrence. */
  function FilesOf(files: seq<SourceFile>, root: Text, ren: Renaming, host: Host): seq<FileEdits> {
    if files == [] then []
    else FilesOf(files[..|files| - 1], root, ren, host) + FileEditsOf(files[|files| - 1], root, ren, host)
  }

  function InsertByPath(file: FileEdits, sorted: seq<FileEdits>, upTo: (Text, Text) -> bool): seq<FileEdits> {
    if sorted == [] || upTo(file.path, sorted[0].path) then [file] + sorted
    else [sorted[0]] + InsertByPath(file, sorted[1..], upTo)
  }

  /** The stable sort by path, in the host's order. */
  function ByPath(files: seq<FileEdits>, upTo: (Text, Text) -> bool): seq<FileEdits> {
    if files == [] then [] else InsertByPath(files[0], ByPath(files[1..], upTo), upTo)
  }

  lemma {:induction false} InsertedByPath(file: FileEdits, sorted: seq<FileEdits>, upTo: (Text, Text) -> bool)
    ensures multiset(InsertByPath(file, sorted, upTo)) == multiset{file} + multiset(sorted)
  {
    if sorted == [] || upTo(file.path, sorted[0].path) {
    } else {
      InsertedByPath(file, sorted[1..], upTo);
      assert sorted == [sorted[0]] + sorted[1..];
    }
  }

  /** Sorting loses no file and adds none. */
  lemma {:induction false} SortedByPath(files: seq<FileEdits>, upTo: (Text, Text) -> bool)
    ensures multiset(ByPath(files, upTo)) == multiset(files)
  {
    if files != [] {
      SortedByPath(files[1..], upTo);
      InsertedByPath(files[0], ByPath(files[1..], upTo), upTo);
      assert files == [files[0]] + files[1..];
    }
  }

  /** What a sort may expect of a comparison. */
  ghost predicate TotalPreorder(upTo: (Text, Text) -> bool) {
    && (forall a, b :: upTo(a, b) || upTo(b, a))
    && forall a, b, c | upTo(a, b) && upTo(b, c) :: upTo(a, c)
  }

  ghost predicate InPathOrder(files: seq<FileEdits>, upTo: (Text, Text) -> bool) {
    forall i, j | 0 <= i < j < |files| :: upTo(files[i].path, files[j].path)
  }

  /** The files whose path compares equal to `path`, in their order. */
  function Alike(files: seq<FileEdits>, path: Text, upTo: (Text, Text) -> bool): seq<FileEdits> {
    if files == [] then []
    else (if upTo(files[0].path, path) && upTo(path, files[0].path) then [files[0]] else []) + Alike(files[1..], path, upTo)
  }

  /** The files of `given` with their paths in order; those that compare equal are in the order in which they were given. */
  ghost predicate OrderedFrom(files: seq<FileEdits>, given: seq<FileEdits>, upTo: (Text, Text) -> bool) {
    && multiset(files) == multiset(given) && InPathOrder(files, upTo)
    && forall path :: Alike(files, path, upTo) == Alike(given, path, upTo)
  }

  lemma {:induction false} InsertInOrder(file: FileEdits, sorted: seq<FileEdits>, upTo: (Text, Text) -> bool)
    requires TotalPreorder(upTo) && InPathOrder(sorted, upTo)
    ensures InPathOrder(InsertByPath(file, sorted, upTo), upTo)
  {
    if sorted != [] && !upTo(file.path, sorted[0].path) {
      var rest := InsertByPath(file, sorted[1..], upTo);
      InsertInOrder(file, sorted[1..], upTo);
      InsertedByPath(file, sorted[1..], upTo);
      forall j | 0 <= j < |rest| ensures upTo(sorted[0].path, rest[j].path) {
        assert rest[j] in multiset(rest);
        if rest[j] != file { assert rest[j] in sorted[1..]; }
      }
    }
  }

  lemma {:induction false} InsertAlike(file: FileEdits, sorted: seq<FileEdits>, path: Text, upTo: (Text, Text) -> bool)
    requires TotalPreorder(upTo)
    ensures Alike(InsertByPath(file, sorted, upTo), path, upTo) == Alike([file] + sorted, path, upTo)
  {
    assert ([file] + sorted)[1..] == sorted;
    if sorted != [] && !upTo(file.path, sorted[0].path) {
      var rest := InsertByPath(file, sorted[1..], upTo);
      InsertAlike(file, sorted[1..], path, upTo);
      assert ([file] + sorted[1..])[1..] == sorted[1..] && ([sorted[0]] + rest)[1..] == rest;
    }
  }

  /** The sort puts the paths in order and keeps the order of those that compare equal. */
  lemma {:induction false} SortsByPath(files: seq<FileEdits>, upTo: (Text, Text) -> bool)
    requires TotalPreorder(upTo)
    ensures OrderedFrom(ByPath(files, upTo), files, upTo)
  {
    if files != [] {
      var rest := ByPath(files[1..], upTo);
      SortsByPath(files[1..], upTo);
      SortedByPath(files, upTo);
      InsertInOrder(files[0], rest, upTo);
      forall path ensures Alike(ByPath(files, upTo), path, upTo) == Alike(files, path, upTo) {
        InsertAlike(files[0], rest, path, upTo);
        assert ([files[0]] + rest)[1..] == rest;
      }
    }
  }

  function TotalBytes(files: seq<SourceFile>, host: Host): nat {
    if files == [] then 0
    else TotalBytes(files[..|files| - 1], host) + host.bytes(files[|files| - 1].content)
  }

  function TotalEdits(files: seq<SourceFile>, ren: Renaming): nat {
    if files == [] then 0
    else TotalEdits(files[..|files| - 1], ren)
         + |EditsIn(files[|files| - 1].content, ren)|
  }

  datatype FilesResult = Collected(files: seq<FileEdits>, totalEdits: nat) | Stopped(error: PlanError)

  /** The files all lie inside the root and stay within the limits. */
  ghost predicate WithinLimits(root: Text, files: seq<SourceFile>, ren: Renaming, limits: Limits, host: Host) {
    && AllInside(root, files, host)
    && TotalBytes(files, host) <= limits.maxBytes
    && TotalEdits(files, ren) <= limits.maxEdits
  }

  ghost predicate AllInside(root: Text, files: seq<SourceFile>, host: Host) {
    forall k | 0 <= k < |files| :: host.relative(root, files[k].path).Some?
  }

  lemma {:induction false} OneMoreFile(root: Text, files: seq<SourceFile>, i: nat, ren: Renaming, host: Host)
    requires i < |files|
    ensures FilesOf(files[..i + 1], root, ren, host) == FilesOf(files[..i], root, ren, host) + FileEditsOf(files[i], root, ren, host)
    ensures TotalBytes(files[..i + 1], host) == TotalBytes(files[..i], host) + host.bytes(files[i].content)
    ensures TotalEdits(files[..i + 1], ren) == TotalEdits(files[..i], ren) + |EditsIn(files[i].content, ren)|
  {
    assert files[..i + 1][..i] == files[..i];
  }

  /** The loop of createProjectRenamePlan: collect the edits file by file, stop at the first limit. */
  method CollectEdits(root: Text, files: seq<SourceFile>, ren: Renaming, limits: Limits, host: Host) returns (r: FilesResult)
    ensures r.Collected? <==> WithinLimits(root, files, ren, limits, host)
    ensures r.Collected? ==> r.files == FilesOf(files, root, ren, host) && r.totalEdits == TotalEdits(files, ren)
  {
    var totalBytes, totalEdits := 0, 0;
    var planned: seq<FileEdits> := [];
    assert files[..0] == [];
    for i := 0 to |files|
      invariant planned == FilesOf(files[..i], root, ren, host)
      invariant totalBytes == TotalBytes(files[..i], host) <= limits.maxBytes
      invariant totalEdits == TotalEdits(files[..i], ren) <= limits.maxEdits
      invariant AllInside(root, files[..i], host)
    {
      var file := files[i];
      OneMoreFile(root, files, i, ren, host);
      TotalsGrow(files, i + 1, ren, host);
      InsideGrows(root, files, i, host);
      var path := host.relative(root, file.path);
      if path.None? { return Stopped(OutsideRoot); }
      totalBytes := totalBytes + host.bytes(file.content);
      if totalBytes > limits.maxBytes { return Stopped(TooManyBytes); }
      var edits, diagnostics := EditsFor(file.content, ren);
      totalEdits := totalEdits + |edits|;
      if totalEdits > limits.maxEdits { return Stopped(TooManyEdits); }
      if |edits| > 0 {
        planned := planned + [FileEdits(path.value, host.digest(file.content), host.bytes(file.content), edits, diagnostics)];
      }
    }
    assert files[..|files|] == files;
    return Collected(planned, totalEdits);
  }

  datatype Verdict = Valid | Unsupported | IntegrityFailed | InvalidBounds | NotSorted | SymbolMismatch

  predicate EditsValid(edits: seq<Edit>, body: PlanBody) {
    && Ascending(edits)
    && forall k | 0 <= k < |edits| :: edits[k].oldText == body.oldSymbol && edits[k].newText == body.newSymbol
  }

  predicate FilesValid(body: PlanBody) {
    forall file | file in body.files :: EditsValid(file.edits, body)
  }

  /** What a plan has to be for anything to be done with it. */
  predicate ValidPlan(plan: Plan, host: Host) {
    && plan.body.version == 1 && plan.body.kind == PlanKind()
    && host.seal(plan.body) == plan.planId
    && FilesValid(plan.body)
  }

  lemma {:induction false} EditsOfSymbols(content: Text, tokens: seq<Token>, ren: Renaming)
    ensures forall e | e in EditsOf(content, tokens, ren) :: e.oldText == ren.from && e.newText == ren.to
  {
    if tokens != [] { EditsOfSymbols(content, tokens[1..], ren); }
  }

  lemma {:induction false} FreshEditsValid(root: Text, files: seq<SourceFile>, ren: Renaming, host: Host, body: PlanBody)
    requires ren.from != [] && body.oldSymbol == ren.from && body.newSymbol == ren.to
    ensures forall file | file in FilesOf(files, root, ren, host) :: EditsValid(file.edits, body)
    decreases |files|
  {
    if files != [] {
      var file := files[|files| - 1];
      FreshEditsValid(root, files[..|files| - 1], ren, host, body);
      EditsForRename(file.content, ren);
      EditsOfSymbols(file.content, Tokens(Lex(file.content), 0, false), ren);
      var edits := EditsIn(file.content, ren);
      forall k | 0 <= k < |edits| ensures edits[k].oldText == ren.from && edits[k].newText == ren.to {
        assert edits[k] in edits;
      }
      assert EditsValid(edits, body);
    }
  }

  /** The plan made for an accepted renaming of files. */
  function FreshPlan(root: Text, files: seq<SourceFile>, oldSymbol: Text, requested: Text, language: Language, accepted: Outcome,
                     limits: Limits, host: Host): Plan
    requires accepted.Accepted?
  {
    var ren := Renaming(oldSymbol, accepted.effective);
    var body := PlanBody(1, PlanKind(), root, language, accepted.policy, oldSymbol, requested, ren.to, accepted.current, accepted.target,
                         ByPath(FilesOf(files, root, ren, host), host.upTo), TotalEdits(files, ren), limits);
    Plan(body, host.seal(body))
  }

  /** A fresh plan passes validation. */
  lemma {:induction false} FreshPlanValid(root: Text, files: seq<SourceFile>, oldSymbol: Text, requested: Text, language: Language,
                                          accepted: Outcome, limits: Limits, host: Host)
    requires accepted.Accepted? && oldSymbol != []
    ensures ValidPlan(FreshPlan(root, files, oldSymbol, requested, language, accepted, limits, host), host)
  {
    var ren := Renaming(oldSymbol, accepted.effective);
    var body := FreshPlan(root, files, oldSymbol, requested, language, accepted, limits, host).body;
    FreshEditsValid(root, files, ren, host, body);
    SortedByPath(FilesOf(files, root, ren, host), host.upTo);
    forall file | file in body.files ensures EditsValid(file.edits, body) {
      assert file in multiset(body.files) && file in FilesOf(files, root, ren, host);
    }
  }

  /**
   createProjectRenamePlan. A plan is made exactly for an accepted pair of names, files inside
   the root and totals within the limits; it lists the edits of every file that has any.
   */
  method CreateProjectRenamePlan(root: Text, files: seq<SourceFile>, oldSymbol: Text, newSymbol: Text, language: Language,
                                 policy: Option<Policy>, limits: Limits, host: Host)
    returns (r: PlanResult)
    ensures var prepared := PrepareSymbolRename(oldSymbol, newSymbol, language, policy, host.upper);
            && (r.Planned? <==>
                  && prepared.Accepted? && |files| <= limits.maxFiles
                  && WithinLimits(root, files, Renaming(oldSymbol, prepared.effective), limits, host))
            && (r.Planned? ==>
                  && r.plan == FreshPlan(root, files, oldSymbol, newSymbol, language, prepared, limits, host)
                  && ValidPlan(r.plan, host)
                  && (TotalPreorder(host.upTo) ==>
                        OrderedFrom(r.plan.body.files, FilesOf(files, root, Renaming(oldSymbol, prepared.effective), host), host.upTo)))
  {
    var prepared := PrepareSymbolRename(oldSymbol, newSymbol, language, policy, host.upper);
    if prepared.Rejected? { return NotPlanned(SymbolsRejected(prepared.error)); }
    var ren := Renaming(oldSymbol, prepared.effective);
    if |files| > limits.maxFiles { return NotPlanned(TooManyFiles); }
    var collected := CollectEdits(root, files, ren, limits, host);
    if collected.Stopped? { return NotPlanned(collected.error); }
    var body := PlanBody(1, PlanKind(), root, language, prepared.policy, oldSymbol, newSymbol, ren.to, prepared.current, prepared.target,
                         ByPath(collected.files, host.upTo), collected.totalEdits, limits);
    AcceptedNames(oldSymbol, newSymbol, language, policy, host.upper);
    FreshPlanValid(root, files, oldSymbol, newSymbol, language, prepared, limits, host);
    if TotalPreorder(host.upTo) { SortsByPath(collected.files, host.upTo); }
    return Planned(Plan(body, host.seal(body)));
  }

  lemma {:induction false} InsideGrows(root: Text, files: seq<SourceFile>, i: nat, host: Host)
    requires i < |files|
    ensures AllInside(root, files[..i + 1], host)
       <==> AllInside(root, files[..i], host) && host.relative(root, files[i].path).Some?
    ensures AllInside(root, files, host) ==> host.relative(root, files[i].path).Some?
  {}

  lemma {:induction false} TotalsGrow(files: seq<SourceFile>, i: nat, ren: Renaming, host: Host)
    requires i <= |files|
    ensures TotalBytes(files[..i], host) <= TotalBytes(files, host)
    ensures TotalEdits(files[..i], ren) <= TotalEdits(files, ren)
    decreases |files|
  {
    if i < |files| {
      var shorter := files[..|files| - 1];
      TotalsGrow(shorter, i, ren, host);
      assert shorter[..i] == files[..i];
    } else {
      assert files[..i] == files;
    }
  }

  lemma {:induction false} OneMoreEdit(edits: seq<Edit>, k: nat, body: PlanBody)
    requires k < |edits|
    ensures EditsValid(edits, body) ==> EditsValid(edits[..k + 1], body)
    ensures EditsValid(edits[..k + 1], body) <==>
              && EditsValid(edits[..k], body)
              && 0 <= edits[k].start < edits[k].end && (k > 0 ==> edits[k - 1].end <= edits[k].start)
              && edits[k].oldText == body.oldSymbol && edits[k].newText == body.newSymbol
  {
    var longer := edits[..k + 1];
    assert longer[k] == edits[k];
    assert forall i | 0 <= i < k :: edits[..k][i] == longer[i];
    if EditsValid(longer, body) && k > 0 { assert longer[k - 1].end <= longer[k].start; }
  }

  /** The inner loop of validateRenamePlan. */
  method ValidateEdits(edits: seq<Edit>, body: PlanBody) returns (v: Verdict)
    ensures v == Valid <==> EditsValid(edits, body)
    ensures v != Unsupported && v != IntegrityFailed
  {
    var previous := -1;
    for k := 0 to |edits|
      invariant EditsValid(edits[..k], body)
      invariant previous == if k == 0 then -1 else edits[k - 1].end
    {
      var edit := edits[k];
      OneMoreEdit(edits, k, body);
      if edit.start < 0 || edit.end <= edit.start { return InvalidBounds; }
      if edit.start < previous { return NotSorted; }
      previous := edit.end;
      if edit.oldText != body.oldSymbol || edit.newText != body.newSymbol { return SymbolMismatch; }
    }
    assert edits[..|edits|] == edits;
    return Valid;
  }

  /** validateRenamePlan: which plans are accepted, and which refusal comes first. */
  method ValidateRenamePlan(plan: Plan, host: Host) returns (v: Verdict)
    ensures v == Valid <==> ValidPlan(plan, host)
    ensures v == Unsupported <==> plan.body.version != 1 || plan.body.kind != PlanKind()
    ensures v == IntegrityFailed <==> v != Unsupported && host.seal(plan.body) != plan.planId
  {
    var body := plan.body;
    if body.version != 1 || body.kind != PlanKind() { return Unsupported; }
    if host.seal(body) != plan.planId { return IntegrityFailed; }
    for f := 0 to |body.files|
      invariant forall g | 0 <= g < f :: EditsValid(body.files[g].edits, body)
    {
      assert body.files[f] in body.files;
      v := ValidateEdits(body.files[f].edits, body);
      if v != Valid { return; }
    }
    return Valid;
  }

  // ---------------------------------------------------------------- applying to a map

  datatype MapResult = MapApplied(output: map<Text, Text>) | PlanRefused(verdict: Verdict) | MissingContent | Stale

  /** The files of a plan applied one after the other. */
  function ApplyAll(files: seq<FileEdits>, contents: map<Text, Text>, digest: Text -> Text): Option<map<Text, Text>> {
    if files == [] then Some(contents)
    else
      var before := ApplyAll(files[..|files| - 1], contents, digest);
      if before.None? then None else ApplyFile(files[|files| - 1], before.value, digest)
  }

  lemma {:induction false} ApplyAllFails(files: seq<FileEdits>, contents: map<Text, Text>, digest: Text -> Text, i: nat)
    requires i <= |files|
    requires ApplyAll(files[..i], contents, digest).None?
    ensures ApplyAll(files, contents, digest).None?
    decreases |files|
  {
    if i < |files| {
      var shorter := files[..|files| - 1];
      assert shorter[..i] == files[..i];
      ApplyAllFails(shorter, contents, digest, i);
    } else {
      assert files[..i] == files;
    }
  }

  /** The new content of one file of a plan; None when it is not the planned content or an edit does not match. */
  function NewContent(file: FileEdits, content: Text, digest: Text -> Text): Option<Text> {
    if digest(content) == file.digest && Ascending(file.edits) then SpliceAll(content, file.edits) else None
  }

  /** What one file of a plan makes of the contents; None when its place is missing or it is stale. */
  function ApplyFile(file: FileEdits, contents: map<Text, Text>, digest: Text -> Text): Option<map<Text, Text>> {
    if file.path !in contents then None
    else
      var changed := NewContent(file, contents[file.path], digest);
      if changed.Some? then Some(contents[file.path := changed.value]) else None
  }

  /** One turn of the loop over the files. */
  method ApplyOneFile(file: FileEdits, contents: map<Text, Text>, digest: Text -> Text) returns (r: MapResult)
    requires Ascending(file.edits)
    ensures !r.PlanRefused?
    ensures if r.MapApplied? then ApplyFile(file, contents, digest) == Some(r.output) else ApplyFile(file, contents, digest).None?
  {
    if file.path !in contents { return MissingContent; }
    var applied := ApplyEdits(contents[file.path], file, digest);
    if !applied.Applied? { return Stale; }
    r := MapApplied(contents[file.path := applied.text]);
  }

  lemma {:induction false} ApplyNext(files: seq<FileEdits>, contents: map<Text, Text>, digest: Text -> Text, i: nat,
                                     before: map<Text, Text>)
    requires i < |files| && ApplyAll(files[..i], contents, digest) == Some(before)
    ensures ApplyAll(files[..i + 1], contents, digest) == ApplyFile(files[i], before, digest)
  {
    assert files[..i + 1][..i] == files[..i] && files[..i + 1][i] == files[i];
  }

  /** applyRenamePlanToMap: the new contents, or nothing at all. */
  method ApplyRenamePlanToMap(plan: Plan, contents: map<Text, Text>, host: Host) returns (r: MapResult)
    ensures r.PlanRefused? <==> !ValidPlan(plan, host)
    ensures r.MapApplied? <==> ValidPlan(plan, host) && ApplyAll(plan.body.files, contents, host.digest).Some?
    ensures r.MapApplied? ==> Some(r.output) == ApplyAll(plan.body.files, contents, host.digest)
  {
    var verdict := ValidateRenamePlan(plan, host);
    if verdict != Valid { return PlanRefused(verdict); }
    var files := plan.body.files;
    r := MapApplied(contents);
    assert files[..0] == [];
    for i := 0 to |files|
      invariant r.MapApplied? && ApplyAll(files[..i], contents, host.digest) == Some(r.output)
    {
      ApplyNext(files, contents, host.digest, i, r.output);
      assert EditsValid(files[i].edits, plan.body) by { assert files[i] in files; }
      r := ApplyOneFile(files[i], r.output, host.digest);
      if !r.MapApplied? {
        ApplyAllFails(files, contents, host.digest, i + 1);
        return;
      }
    }
    assert files[..|files|] == files;
  }

  // ---------------------------------------------------------------- from plan to result

  /** The files have different places, and `contents` still holds what the plan was made from. */
  ghost predicate Unchanged(root: Text, files: seq<SourceFile>, host: Host, contents: map<Text, Text>) {
    && AllInside(root, files, host)
    && (forall k | 0 <= k < |files| ::
          host.relative(root, files[k].path).value in contents
          && contents[host.relative(root, files[k].path).value] == files[k].content)
    && (forall j, k | 0 <= j < k < |files| ::
          host.relative(root, files[j].path) != host.relative(root, files[k].path))
  }

  ghost function RenamedContents(root: Text, files: seq<SourceFile>, ren: Renaming, host: Host, contents: map<Text, Text>)
    : map<Text, Text>
    requires AllInside(root, files, host)
  {
    if files == [] then contents
    else
      var shorter := files[..|files| - 1];
      assert AllInside(root, shorter, host);
      RenamedContents(root, shorter, ren, host, contents)
        [host.relative(root, files[|files| - 1].path).value := Renamed(files[|files| - 1].content, ren)]
  }

  lemma {:induction false} LastFile(files: seq<SourceFile>, root: Text, ren: Renaming, host: Host)
    requires files != [] && AllInside(root, files, host) && ren.from != []
    ensures var last := FileEditsOf(files[|files| - 1], root, ren, host);
            && (last == [] ==> Renamed(files[|files| - 1].content, ren) == files[|files| - 1].content)
            && (last != [] ==>
                  && |last| == 1 && last[0].path == host.relative(root, files[|files| - 1].path).value
                  && NewContent(last[0], files[|files| - 1].content, host.digest) == Some(Renamed(files[|files| - 1].content, ren)))
  {
    EditsForRename(files[|files| - 1].content, ren);
    SpliceIsSubstitute(files[|files| - 1].content, EditsIn(files[|files| - 1].content, ren));
    assert host.relative(root, files[|files| - 1].path).Some?;
  }

  lemma {:induction false} OtherPlaces(root: Text, files: seq<SourceFile>, ren: Renaming, host: Host, contents: map<Text, Text>,
                                       path: Text)
    requires AllInside(root, files, host)
    requires forall k | 0 <= k < |files| :: host.relative(root, files[k].path).value != path
    ensures path in RenamedContents(root, files, ren, host, contents) <==> path in contents
    ensures path in contents ==> RenamedContents(root, files, ren, host, contents)[path] == contents[path]
  {
    if files != [] {
      assert host.relative(root, files[|files| - 1].path).value != path;
      OtherPlaces(root, files[..|files| - 1], ren, host, contents, path);
    }
  }

  /** Every file has its renamed text at its place. */
  lemma {:induction false} RenamedAt(root: Text, files: seq<SourceFile>, ren: Renaming, host: Host, contents: map<Text, Text>, k: nat)
    requires Unchanged(root, files, host, contents) && k < |files|
    ensures var path, out := host.relative(root, files[k].path).value, RenamedContents(root, files, ren, host, contents);
            path in out && out[path] == Renamed(files[k].content, ren)
    decreases |files|
  {
    var n := |files| - 1;
    UnchangedShorter(root, files, host, contents);
    if k < n {
      var shorter := files[..n];
      assert shorter[k] == files[k];
      assert host.relative(root, shorter[k].path).value != host.relative(root, files[n].path).value;
      RenamedAt(root, shorter, ren, host, contents, k);
    }
  }

  lemma {:induction false} ApplyAllStep(files: seq<FileEdits>, last: FileEdits, contents: map<Text, Text>, digest: Text -> Text,
                                        before: map<Text, Text>)
    requires ApplyAll(files, contents, digest) == Some(before) && last.path in before
    requires NewContent(last, before[last.path], digest).Some?
    ensures ApplyAll(files + [last], contents, digest)
         == Some(before[last.path := NewContent(last, before[last.path], digest).value])
  {
    var all := files + [last];
    assert all[..|all| - 1] == files && all[|all| - 1] == last;
  }

  lemma {:induction false} UnchangedShorter(root: Text, files: seq<SourceFile>, host: Host, contents: map<Text, Text>)
    requires Unchanged(root, files, host, contents) && files != []
    ensures var shorter, path := files[..|files| - 1], host.relative(root, files[|files| - 1].path).value;
            && Unchanged(root, shorter, host, contents)
            && forall k | 0 <= k < |shorter| :: host.relative(root, shorter[k].path).value != path
  {
    var shorter := files[..|files| - 1];
    assert AllInside(root, files, host);
    assert forall k | 0 <= k < |shorter| :: shorter[k] == files[k];
    forall k | 0 <= k < |shorter|
      ensures host.relative(root, shorter[k].path) != host.relative(root, files[|files| - 1].path) {
      assert shorter[k] == files[k];
    }
  }

  lemma {:induction false} PlanAppliesStep(planned: seq<FileEdits>, last: seq<FileEdits>, contents: map<Text, Text>,
                                           digest: Text -> Text, before: map<Text, Text>, path: Text, changed: Text)
    requires ApplyAll(planned, contents, digest) == Some(before) && path in before
    requires |last| <= 1 && (last == [] ==> changed == before[path])
    requires last != [] ==> last[0].path == path && NewContent(last[0], before[path], digest) == Some(changed)
    ensures ApplyAll(planned + last, contents, digest) == Some(before[path := changed])
  {
    if last == [] {
      assert planned + last == planned;
      assert before[path := before[path]] == before;
    } else {
      ApplyAllStep(planned, last[0], contents, digest, before);
      assert last == [last[0]];
    }
  }

  /** A fresh plan is never stale: applied to the contents it was made from, it renames every file. */
  lemma {:induction false} PlanApplies(root: Text, files: seq<SourceFile>, ren: Renaming, host: Host, contents: map<Text, Text>)
    requires Unchanged(root, files, host, contents) && ren.from != []
    ensures ApplyAll(FilesOf(files, root, ren, host), contents, host.digest) == Some(RenamedContents(root, files, ren, host, contents))
    decreases |files|
  {
    if files != [] {
      var shorter, path := files[..|files| - 1], host.relative(root, files[|files| - 1].path).value;
      UnchangedShorter(root, files, host, contents);
      PlanApplies(root, shorter, ren, host, contents);
      LastFile(files, root, ren, host);
      OtherPlaces(root, shorter, ren, host, contents, path);
      PlanAppliesStep(FilesOf(shorter, root, ren, host), FileEditsOf(files[|files| - 1], root, ren, host), contents, host.digest,
                      RenamedContents(root, shorter, ren, host, contents), path, Renamed(files[|files| - 1].content, ren));
    }
  }

  // ---------------------------------------------------------------- the order of the files

  ghost function Paths(files: seq<FileEdits>): set<Text> {
    set k | 0 <= k < |files| :: files[k].path
  }

  ghost predicate PathsDiffer(files: seq<FileEdits>) {
    forall j, k | 0 <= j < k < |files| :: files[j].path != files[k].path
  }

  /** `out` has the new content of every file at its path, and `contents` everywhere else. */
  ghost predicate Overlaid(files: seq<FileEdits>, contents: map<Text, Text>, digest: Text -> Text, out: map<Text, Text>) {
    && out.Keys == contents.Keys
    && (forall file | file in files :: OverlaidAt(file, contents, digest, out))
    && (forall p | p in contents && p !in Paths(files) :: out[p] == contents[p])
  }

  ghost predicate OverlaidAt(file: FileEdits, contents: map<Text, Text>, digest: Text -> Text, out: map<Text, Text>) {
    && file.path in contents && file.path in out
    && NewContent(file, contents[file.path], digest) == Some(out[file.path])
  }

  lemma {:induction false} OneMorePath(files: seq<FileEdits>, last: FileEdits)
    ensures Paths(files + [last]) == Paths(files) + {last.path}
    ensures PathsDiffer(files + [last]) <==> PathsDiffer(files) && last.path !in Paths(files)
  {
    var all := files + [last];
    forall p ensures p in Paths(all) <==> p in Paths(files) || p == last.path {
      if p in Paths(files) { var k :| 0 <= k < |files| && files[k].path == p; assert all[k].path == p; }
      if p == last.path { assert all[|files|].path == p; }
    }
    if PathsDiffer(all) {
      forall k | 0 <= k < |files| ensures files[k].path != last.path { assert all[k].path != all[|files|].path; }
      forall j, k | 0 <= j < k < |files| ensures files[j].path != files[k].path { assert all[j].path != all[k].path; }
    }
  }

  lemma {:induction false} OverlaidMore(files: seq<FileEdits>, last: FileEdits, contents: map<Text, Text>, digest: Text -> Text,
                                        before: map<Text, Text>, out: map<Text, Text>)
    requires last.path !in Paths(files) && Overlaid(files, contents, digest, before) && ApplyFile(last, before, digest) == Some(out)
    ensures Overlaid(files + [last], contents, digest, out)
  {
    OneMorePath(files, last);
    forall file | file in files + [last] ensures OverlaidAt(file, contents, digest, out) {
      if file in files {
        var k :| 0 <= k < |files| && files[k] == file;
        assert file.path in Paths(files) && OverlaidAt(file, contents, digest, before);
      }
    }
  }

  lemma {:induction false} OverlaidLess(files: seq<FileEdits>, last: FileEdits, contents: map<Text, Text>, digest: Text -> Text,
                                        out: map<Text, Text>) returns (before: map<Text, Text>)
    requires last.path !in Paths(files) && Overlaid(files + [last], contents, digest, out)
    ensures Overlaid(files, contents, digest, before) && ApplyFile(last, before, digest) == Some(out)
  {
    OneMorePath(files, last);
    assert OverlaidAt(last, contents, digest, out);
    before := out[last.path := contents[last.path]];
    forall file | file in files ensures OverlaidAt(file, contents, digest, before) {
      var k :| 0 <= k < |files| && files[k] == file;
      assert file in files + [last] && file.path in Paths(files);
    }
    assert before[last.path := out[last.path]] == out;
  }

  /** With different paths, applying one file after the other is overlaying all of them. */
  lemma {:induction false} ApplyAllOverlays(files: seq<FileEdits>, contents: map<Text, Text>, digest: Text -> Text, out: map<Text, Text>)
    requires PathsDiffer(files)
    ensures ApplyAll(files, contents, digest) == Some(out) <==> Overlaid(files, contents, digest, out)
    decreases |files|
  {
    if files == [] {
      assert Paths(files) == {};
      if Overlaid(files, contents, digest, out) { assert out == contents; }
    } else {
      var front, last := files[..|files| - 1], files[|files| - 1];
      assert files == front + [last];
      OneMorePath(front, last);
      if ApplyAll(files, contents, digest) == Some(out) {
        var before := ApplyAll(front, contents, digest).value;
        ApplyAllOverlays(front, contents, digest, before);
        OverlaidMore(front, last, contents, digest, before, out);
      }
      if Overlaid(files, contents, digest, out) {
        var before := OverlaidLess(front, last, contents, digest, out);
        ApplyAllOverlays(front, contents, digest, before);
      }
    }
  }

  lemma {:induction false} SamePaths(a: seq<FileEdits>, b: seq<FileEdits>)
    requires multiset(a) == multiset(b)
    ensures Paths(a) <= Paths(b)
  {
    forall p | p in Paths(a) ensures p in Paths(b) {
      var k :| 0 <= k < |a| && a[k].path == p;
      assert a[k] in multiset(b);
      var j :| 0 <= j < |b| && b[j] == a[k];
    }
  }

  /** The order of the files of a plan does not matter. */
  lemma {:induction false} OrderIrrelevant(a: seq<FileEdits>, b: seq<FileEdits>, contents: map<Text, Text>, digest: Text -> Text)
    requires multiset(a) == multiset(b) && PathsDiffer(a) && PathsDiffer(b)
    ensures ApplyAll(a, contents, digest) == ApplyAll(b, contents, digest)
  {
    SamePaths(a, b);
    SamePaths(b, a);
    assert forall file :: file in a <==> file in multiset(a);
    assert forall file :: file in b <==> file in multiset(b);
    forall out ensures Overlaid(a, contents, digest, out) <==> Overlaid(b, contents, digest, out) {}
    if ApplyAll(a, contents, digest).Some? {
      var out := ApplyAll(a, contents, digest).value;
      ApplyAllOverlays(a, contents, digest, out);
      ApplyAllOverlays(b, contents, digest, out);
    } else if ApplyAll(b, contents, digest).Some? {
      var out := ApplyAll(b, contents, digest).value;
      ApplyAllOverlays(b, contents, digest, out);
      ApplyAllOverlays(a, contents, digest, out);
    }
  }

  lemma {:induction false} InsertKeepsPaths(file: FileEdits, sorted: seq<FileEdits>, upTo: (Text, Text) -> bool)
    requires PathsDiffer(sorted) && file.path !in Paths(sorted)
    ensures PathsDiffer(InsertByPath(file, sorted, upTo))
    ensures Paths(InsertByPath(file, sorted, upTo)) == Paths(sorted) + {file.path}
  {
    if sorted == [] || upTo(file.path, sorted[0].path) {
      PathInFront(file, sorted);
    } else {
      assert sorted == [sorted[0]] + sorted[1..];
      PathInFront(sorted[0], sorted[1..]);
      InsertKeepsPaths(file, sorted[1..], upTo);
      PathInFront(sorted[0], InsertByPath(file, sorted[1..], upTo));
    }
  }

  lemma {:induction false} PathInFront(file: FileEdits, files: seq<FileEdits>)
    ensures Paths([file] + files) == Paths(files) + {file.path}
    ensures PathsDiffer([file] + files) <==> PathsDiffer(files) && file.path !in Paths(files)
  {
    var all := [file] + files;
    forall p ensures p in Paths(all) <==> p in Paths(files) || p == file.path {
      if p in Paths(files) { var k :| 0 <= k < |files| && files[k].path == p; assert all[k + 1].path == p; }
      if p == file.path { assert all[0].path == p; }
    }
    if PathsDiffer(all) {
      forall k | 0 <= k < |files| ensures files[k].path != file.path { assert all[0].path != all[k + 1].path; }
      forall j, k | 0 <= j < k < |files| ensures files[j].path != files[k].path { assert all[j + 1].path != all[k + 1].path; }
    }
  }

  lemma {:induction false} SortKeepsPaths(files: seq<FileEdits>, upTo: (Text, Text) -> bool)
    requires PathsDiffer(files)
    ensures PathsDiffer(ByPath(files, upTo)) && Paths(ByPath(files, upTo)) == Paths(files)
  {
    if files != [] {
      assert files == [files[0]] + files[1..];
      PathInFront(files[0], files[1..]);
      SortKeepsPaths(files[1..], upTo);
      InsertKeepsPaths(files[0], ByPath(files[1..], upTo), upTo);
    }
  }

  lemma {:induction false} PlannedPaths(root: Text, files: seq<SourceFile>, ren: Renaming, host: Host, contents: map<Text, Text>)
    requires Unchanged(root, files, host, contents)
    ensures PathsDiffer(FilesOf(files, root, ren, host))
    ensures forall p | p in Paths(FilesOf(files, root, ren, host)) :: PathOf(root, files, host, p)
    decreases |files|
  {
    if files != [] {
      var shorter, last := files[..|files| - 1], FileEditsOf(files[|files| - 1], root, ren, host);
      UnchangedShorter(root, files, host, contents);
      PlannedPaths(root, shorter, ren, host, contents);
      var planned := FilesOf(shorter, root, ren, host);
      if last == [] {
        assert planned + last == planned;
      } else {
        assert last == [last[0]];
        OneMorePath(planned, last[0]);
      }
      forall p | p in Paths(planned + last) ensures PathOf(root, files, host, p) {
        if p in Paths(planned) {
          var k: nat :| k < |shorter| && host.relative(root, shorter[k].path) == Some(p);
          assert shorter[k] == files[k];
        }
      }
    }
  }

  ghost predicate PathOf(root: Text, files: seq<SourceFile>, host: Host, p: Text) {
    exists k: nat | k < |files| :: host.relative(root, files[k].path) == Some(p)
  }

  /** A fresh plan, sorted by path, renames every file of unchanged contents. */
  lemma {:induction false} FreshPlanApplies(root: Text, files: seq<SourceFile>, ren: Renaming, host: Host, contents: map<Text, Text>)
    requires Unchanged(root, files, host, contents) && ren.from != []
    ensures ApplyAll(ByPath(FilesOf(files, root, ren, host), host.upTo), contents, host.digest)
         == Some(RenamedContents(root, files, ren, host, contents))
  {
    var planned := FilesOf(files, root, ren, host);
    PlanApplies(root, files, ren, host, contents);
    PlannedPaths(root, files, ren, host, contents);
    SortKeepsPaths(planned, host.upTo);
    SortedByPath(planned, host.upTo);
    OrderIrrelevant(planned, ByPath(planned, host.upTo), contents, host.digest);
  }

  // ---------------------------------------------------------------- applying to files

  /** A write, and whether it came through. Only a write in place can do harm when it fails. */
  datatype Write = Write(path: Text, inPlace: bool, ok: bool)

  /** A file tree in which any write may fail. `log` holds all writes so far. */
  class FileSystem {
    var files: map<Text, Text>
    ghost var log: seq<Write>

    constructor (files: map<Text, Text>)
      ensures this.files == files && log == []
    {
      this.files := files;
      log := [];
    }

    /** Write a temporary file beside the target and rename it over the target. */
    method Replace(path: Text, content: Text) returns (ok: bool)
      modifies this
      ensures files == if ok then old(files)[path := content] else old(files)
      ensures log == old(log) + [Write(path, false, ok)]
    {
      ok := *;
      if ok { files := files[path := content]; }
      log := log + [Write(path, false, ok)];
    }

    /** Write in place: a failure may leave anything behind. */
    method Overwrite(path: Text, content: Text) returns (ok: bool)
      modifies this
      ensures files.Keys == old(files).Keys + {path} && (ok ==> files[path] == content)
      ensures forall p | p in old(files) && p != path :: files[p] == old(files)[p]
      ensures log == old(log) + [Write(path, true, ok)]
    {
      ok := *;
      var left := content;
      if !ok { left := *; }
      files := files[path := left];
      log := log + [Write(path, true, ok)];
    }
  }

  /** The paths whose write in place failed. */
  ghost function Lost(writes: seq<Write>): set<Text> {
    set w | w in writes && w.inPlace && !w.ok :: w.path
  }

  /** Some write beside its target failed. */
  predicate ForwardFailure(writes: seq<Write>) {
    exists w | w in writes :: !w.inPlace && !w.ok
  }

  /** The new contents of all targets, computed from the contents before any write. */
  function Replacements(files: seq<FileEdits>, contents: map<Text, Text>, resolve: Text -> Option<Text>,
                        digest: Text -> Text): Option<map<Text, Text>>
  {
    if files == [] then Some(map[])
    else
      var before := Replacements(files[..|files| - 1], contents, resolve, digest);
      var target := resolve(files[|files| - 1].path);
      if before.None? || target.None? || target.value !in contents then None
      else
        var changed := NewContent(files[|files| - 1], contents[target.value], digest);
        if changed.Some? then Some(before.value[target.value := changed.value]) else None
  }

  lemma {:induction false} ReplacementsFail(files: seq<FileEdits>, contents: map<Text, Text>, resolve: Text -> Option<Text>,
                                            digest: Text -> Text, i: nat)
    requires i <= |files| && Replacements(files[..i], contents, resolve, digest).None?
    ensures Replacements(files, contents, resolve, digest).None?
    decreases |files|
  {
    if i < |files| {
      var shorter := files[..|files| - 1];
      assert shorter[..i] == files[..i];
      ReplacementsFail(shorter, contents, resolve, digest, i);
    } else {
      assert files[..i] == files;
    }
  }

  lemma {:induction false} OneMoreReplacement(files: seq<FileEdits>, i: nat, contents: map<Text, Text>, resolve: Text -> Option<Text>,
                                              digest: Text -> Text, before: map<Text, Text>)
    requires i < |files| && Some(before) == Replacements(files[..i], contents, resolve, digest)
    ensures var target := resolve(files[i].path);
            if target.None? || target.value !in contents then Replacements(files, contents, resolve, digest).None?
            else var changed := NewContent(files[i], contents[target.value], digest);
                 if changed.None? then Replacements(files, contents, resolve, digest).None?
                 else Replacements(files[..i + 1], contents, resolve, digest) == Some(before[target.value := changed.value])
  {
    var sofar := files[..i + 1];
    assert sofar[..i] == files[..i] && sofar[i] == files[i];
    if Replacements(sofar, contents, resolve, digest).None? { ReplacementsFail(files, contents, resolve, digest, i + 1); }
  }

  datatype FilesystemResult = FilesApplied(written: seq<Text>) | PreflightOk | PreflightFailed | WriteFailed

  /** The files agree with `before` outside the paths in `lost`. */
  ghost predicate SameOutside(before: map<Text, Text>, after: map<Text, Text>, lost: set<Text>) {
    && after.Keys == before.Keys
    && forall p | p in before && p !in lost :: after[p] == before[p]
  }

  predicate Distinct(order: seq<Text>) {
    forall j, k | 0 <= j < k < |order| :: order[j] != order[k]
  }

  /**
   The first loop of applyRenamePlanToFilesystem: read every target, compute its replacement,
   write nothing. `resolve` fails for a path that leaves the root, is a link or cannot be read.
   */
  method Preflight(files: seq<FileEdits>, contents: map<Text, Text>, resolve: Text -> Option<Text>, digest: Text -> Text)
    returns (ok: bool, order: seq<Text>, replacements: map<Text, Text>)
    requires forall file | file in files :: Ascending(file.edits)
    ensures ok <==> Replacements(files, contents, resolve, digest).Some?
    ensures ok ==> Some(replacements) == Replacements(files, contents, resolve, digest)
    ensures ok ==> replacements.Keys <= contents.Keys && (set p | p in order) == replacements.Keys && Distinct(order)
  {
    ok, order, replacements := true, [], map[];
    assert files[..0] == [];
    for i := 0 to |files|
      invariant ok
      invariant Some(replacements) == Replacements(files[..i], contents, resolve, digest)
      invariant replacements.Keys <= contents.Keys && (set p | p in order) == replacements.Keys && Distinct(order)
    {
      var file := files[i];
      assert file in files;
      OneMoreReplacement(files, i, contents, resolve, digest, replacements);
      var target := resolve(file.path);
      if target.None? || target.value !in contents { return false, order, replacements; }
      var applied := ApplyEdits(contents[target.value], file, digest);
      if !applied.Applied? { return false, order, replacements; }
      if target.value !in replacements { order := order + [target.value]; }
      replacements := replacements[target.value := applied.text];
    }
    assert files[..|files|] == files;
  }

  /** The writes in place of the recovery: every path of `written`, the last one first. */
  predicate Recovery(writes: seq<Write>, written: seq<Text>) {
    && |writes| == |written|
    && forall k | 0 <= k < |writes| :: writes[k].inPlace && writes[k].path == written[|written| - 1 - k]
  }

  lemma {:induction false} RecoveryGrows(writes: seq<Write>, written: seq<Text>, k: nat, ok: bool)
    requires k < |written| && Recovery(writes, written[k + 1..])
    ensures Recovery(writes + [Write(written[k], true, ok)], written[k..])
  {
    var more, paths := writes + [Write(written[k], true, ok)], written[k..];
    forall i | 0 <= i < |more| ensures more[i].inPlace && more[i].path == paths[|paths| - 1 - i] {
      if i < |writes| { assert writes[i].path == written[k + 1..][|writes| - 1 - i]; }
    }
  }

  /** The recovery loop: put the originals back, last written first, whatever happens on the way. */
  method RestoreWritten(fs: FileSystem, written: seq<Text>, originals: map<Text, Text>) returns (ghost writes: seq<Write>)
    requires forall p | p in written :: p in originals
    requires SameOutside(originals, fs.files, set p | p in written)
    modifies fs
    ensures fs.log == old(fs.log) + writes && Recovery(writes, written)
    ensures SameOutside(originals, fs.files, Lost(writes))
  {
    writes := [];
    assert written[..|written|] == written;
    for k := |written| downto 0
      invariant fs.log == old(fs.log) + writes && Recovery(writes, written[k..])
      invariant SameOutside(originals, fs.files, Lost(writes) + (set p | p in written[..k]))
    {
      assert written[..k + 1] == written[..k] + [written[k]] && written[k] in originals;
      ghost var before := fs.files;
      var ok := fs.Overwrite(written[k], originals[written[k]]);
      RestoredOne(originals, before, fs.files, writes, written[..k], Write(written[k], true, ok));
      RecoveryGrows(writes, written, k, ok);
      writes := writes + [Write(written[k], true, ok)];
    }
    assert written[0..] == written && Lost(writes) + (set p | p in written[..0]) == Lost(writes);
  }

  lemma {:induction false} RestoredOne(originals: map<Text, Text>, before: map<Text, Text>, after: map<Text, Text>,
                                       writes: seq<Write>, front: seq<Text>, w: Write)
    requires SameOutside(originals, before, Lost(writes) + (set p | p in front + [w.path])) && w.inPlace && w.path in originals
    requires after.Keys == before.Keys + {w.path} && (w.ok ==> after[w.path] == originals[w.path])
    requires forall p | p in before && p != w.path :: after[p] == before[p]
    ensures SameOutside(originals, after, Lost(writes + [w]) + (set p | p in front))
  {
    LostGrows(writes, w);
    forall p | p in originals && p !in Lost(writes + [w]) + (set q | q in front) ensures after[p] == originals[p] {
      if p == w.path {
        assert w.ok;
      } else {
        assert p !in Lost(writes) + (set q | q in front + [w.path]);
      }
    }
  }

  lemma {:induction false} LostGrows(writes: seq<Write>, w: Write)
    ensures Lost(writes + [w]) == Lost(writes) + if w.inPlace && !w.ok then {w.path} else {}
  {
    forall p ensures p in Lost(writes + [w]) <==> p in Lost(writes) + if w.inPlace && !w.ok then {w.path} else {} {
      assert forall v :: v in writes + [w] <==> v in writes || v == w;
    }
  }

  /** The files while writing: the paths in `done` hold their replacements, the others their originals. */
  ghost predicate HalfWritten(now: map<Text, Text>, originals: map<Text, Text>, replacements: map<Text, Text>, done: seq<Text>) {
    && now.Keys == originals.Keys && (forall p | p in done :: p in replacements)
    && forall p | p in originals :: now[p] == if p in done then replacements[p] else originals[p]
  }

  lemma {:induction false} OneMoreWritten(now: map<Text, Text>, originals: map<Text, Text>, replacements: map<Text, Text>,
                                          done: seq<Text>, p: Text)
    requires HalfWritten(now, originals, replacements, done) && p in replacements && p in originals
    ensures HalfWritten(now[p := replacements[p]], originals, replacements, done + [p])
  {}

  lemma {:induction false} HalfWrittenElsewhere(now: map<Text, Text>, originals: map<Text, Text>, replacements: map<Text, Text>,
                                                done: seq<Text>)
    requires HalfWritten(now, originals, replacements, done)
    ensures SameOutside(originals, now, set p | p in done)
  {}

  lemma {:induction false} AllWritten(now: map<Text, Text>, originals: map<Text, Text>, replacements: map<Text, Text>, order: seq<Text>)
    requires HalfWritten(now, originals, replacements, order)
    requires (set p | p in order) == replacements.Keys && replacements.Keys <= originals.Keys
    ensures now == originals + replacements
  {
    forall p | p in originals ensures p in order <==> p in replacements { assert p in replacements.Keys <==> p in (set q | q in order); }
  }

  /** The writes while no write has failed: every path of `done` replaced, in order. */
  predicate Forward(writes: seq<Write>, done: seq<Text>) {
    |writes| == |done| && forall k | 0 <= k < |writes| :: writes[k] == Write(done[k], false, true)
  }

  /**
   The writing ended well, or the write of the path behind those of `done` failed and the
   paths of `done` were written back, the last one first.
   */
  ghost predicate Writing(writes: seq<Write>, order: seq<Text>, ok: bool) {
    if ok then Forward(writes, order)
    else exists i | 0 <= i < |order| :: GaveUpAt(writes, order, i)
  }

  predicate GaveUpAt(writes: seq<Write>, order: seq<Text>, i: nat)
    requires i < |order|
  {
    && |writes| > i && Forward(writes[..i], order[..i]) && writes[i] == Write(order[i], false, false)
    && Recovery(writes[i + 1..], order[..i])
  }

  lemma {:induction false} ForwardLoses(writes: seq<Write>, done: seq<Text>)
    requires Forward(writes, done)
    ensures Lost(writes) == {} && !ForwardFailure(writes)
  {}

  lemma {:induction false} GaveUp(fs: seq<Write>, recovery: seq<Write>, order: seq<Text>, i: nat)
    requires i < |order| && Forward(fs, order[..i]) && Recovery(recovery, order[..i])
    ensures var writes := fs + [Write(order[i], false, false)] + recovery;
            && Writing(writes, order, false) && Lost(writes) == Lost(recovery) && ForwardFailure(writes)
            && forall p | p in Lost(writes) :: p in order[..i]
  {
    var failure := Write(order[i], false, false);
    var writes := fs + [failure] + recovery;
    assert writes[..i] == fs && writes[i] == failure && writes[i + 1..] == recovery;
    assert GaveUpAt(writes, order, i);
    assert forall w :: w in writes <==> w in fs || w == failure || w in recovery;
    assert failure in writes;
  }

  lemma {:induction false} FirstPaths(order: seq<Text>, paths: set<Text>, i: nat)
    requires (set p | p in order) == paths && i < |order|
    ensures order[..i + 1] == order[..i] + [order[i]] && order[i] in paths
    ensures forall p | p in order[..i] :: p in paths
  {
    forall p | p in order[..i + 1] ensures p in paths { assert p in (set q | q in order); }
  }

  /** The writing loop: every target replaced, or the recovery after the first failure. */
  method WriteAll(fs: FileSystem, order: seq<Text>, replacements: map<Text, Text>, originals: map<Text, Text>)
    returns (ok: bool, ghost writes: seq<Write>)
    requires fs.files == originals
    requires (set p | p in order) == replacements.Keys && replacements.Keys <= originals.Keys
    modifies fs
    ensures fs.log == old(fs.log) + writes && Writing(writes, order, ok)
    ensures ok <==> !ForwardFailure(writes)
    ensures ok ==> fs.files == originals + replacements
    ensures !ok ==> SameOutside(originals, fs.files, Lost(writes)) && Lost(writes) <= replacements.Keys
  {
    writes := [];
    for i := 0 to |order|
      invariant HalfWritten(fs.files, originals, replacements, order[..i])
      invariant fs.log == old(fs.log) + writes && Forward(writes, order[..i])
    {
      FirstPaths(order, replacements.Keys, i);
      OneMoreWritten(fs.files, originals, replacements, order[..i], order[i]);
      ok := fs.Replace(order[i], replacements[order[i]]);
      if !ok {
        HalfWrittenElsewhere(fs.files, originals, replacements, order[..i]);
        ghost var recovery := RestoreWritten(fs, order[..i], originals);
        GaveUp(writes, recovery, order, i);
        Regroup(old(fs.log), writes, [Write(order[i], false, false)]);
        Regroup(old(fs.log), writes + [Write(order[i], false, false)], recovery);
        writes := writes + [Write(order[i], false, false)] + recovery;
        return;
      }
      Regroup(old(fs.log), writes, [Write(order[i], false, true)]);
      writes := writes + [Write(order[i], false, true)];
    }
    assert order[..|order|] == order;
    AllWritten(fs.files, originals, replacements, order);
    ForwardLoses(writes, order);
    ok := true;
  }

  lemma {:induction false} NothingLost(before: map<Text, Text>, after: map<Text, Text>)
    requires SameOutside(before, after, {})
    ensures after == before
  {}

  /**
   applyRenamePlanToFilesystem: all targets replaced, or every target as it was, except
   those whose restoring write failed as well.
   */
  method ApplyRenamePlanToFilesystem(plan: Plan, save: bool, fs: FileSystem, resolve: Text -> Option<Text>, host: Host)
    returns (r: FilesystemResult, ghost writes: seq<Write>)
    modifies fs
    ensures var m := Replacements(plan.body.files, old(fs.files), resolve, host.digest);
            && (r.PreflightFailed? <==> !ValidPlan(plan, host) || m.None?)
            && (r.PreflightOk? <==> ValidPlan(plan, host) && m.Some? && !save)
            && (r.FilesApplied? ==>
                  && fs.files == old(fs.files) + m.value
                  && (set p | p in r.written) == m.value.Keys && Distinct(r.written) && Forward(writes, r.written))
            && (r.WriteFailed? ==>
                  && m.Some? && Lost(writes) <= m.value.Keys
                  && exists order | (set p | p in order) == m.value.Keys && Distinct(order) :: Writing(writes, order, false))
    ensures fs.log == old(fs.log) + writes
    ensures r.PreflightFailed? || r.PreflightOk? ==> fs.files == old(fs.files) && writes == []
    ensures r.WriteFailed? <==> ForwardFailure(writes)
    ensures r.WriteFailed? ==> SameOutside(old(fs.files), fs.files, Lost(writes))
    ensures r.WriteFailed? && Lost(writes) == {} ==> fs.files == old(fs.files)
  {
    writes := [];
    var verdict := ValidateRenamePlan(plan, host);
    if verdict != Valid { return PreflightFailed, writes; }
    var originals := fs.files;
    var ok, order, replacements := Preflight(plan.body.files, originals, resolve, host.digest);
    if !ok { return PreflightFailed, writes; }
    if !save { return PreflightOk, writes; }
    ok, writes := WriteAll(fs, order, replacements, originals);
    if ok { return FilesApplied(order), writes; }
    if Lost(writes) == {} { NothingLost(originals, fs.files); }
    return WriteFailed, writes;
  }
}
