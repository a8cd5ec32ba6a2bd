/**
 The benchmark's bracket checker: one loop that skips comments, strings and characters by flags
 and matches brackets as it goes, against skipping first and matching afterwards.
 */
module StructureChecker {
  import opened BracketFindings
  import opened BracketPartners
  import opened BracketWords
  import opened CodeUnits
  import opened LispLexer

  // ---------------------------------------------------------------- skipping first

  /** What a backslash must follow to start a character. */
  predicate BeforeCharacter(u: CodeUnit) {
    IsSpace(u) || u == LPAREN || u == LBRACKET || u == LBRACE || u == QUOTE || u == APOSTROPHE
  }

  predicate EndsName(u: CodeUnit) {
    IsSpace(u) || IsBracket(u)
  }

  function NameRun(text: Text, k: nat): (n: nat)
    requires k <= |text|
    ensures k <= n <= |text|
    decreases |text| - k
  {
    if k == |text| || EndsName(text[k]) then k else NameRun(text, k + 1)
  }

  /** Where the character ends whose first unit is the one before `k`; a bracket stands for itself. */
  function CharacterEnd(text: Text, k: nat): (n: nat)
    requires 0 < k <= |text|
    ensures k <= n <= |text|
  {
    if IsBracket(text[k - 1]) then k else NameRun(text, k)
  }

  function Min(a: nat, b: nat): nat { if a < b then a else b }

  predicate StartsCharacter(text: Text, i: nat)
    requires i < |text|
  {
    text[i] == BACKSLASH && (i == 0 || BeforeCharacter(text[i - 1]))
  }

  /** What is left of a text for matching: its brackets with their places, and what does not end. */
  datatype Skimmed = Skimmed(brackets: seq<Place>, unended: Unended)

  datatype Unended = Nothing | AString | AComment

  /** The brackets from `i` on, outside of comments, strings and characters. */
  function Skim(text: Text, i: nat): (r: Skimmed)
    requires i <= |text|
    ensures OnlyBrackets(r.brackets)
    decreases |text| - i, 1
  {
    if i == |text| then Skimmed([], Nothing)
    else if text[i] == SEMICOLON then AfterLine(text, i + 1)
    else if Begins(text[i..], HASH, BAR) then AfterBlock(text, i + 2, 1)
    else if text[i] == QUOTE then AfterString(text, i + 1)
    else if text[i] == QUESTION then Skim(text, Min(|text|, if Begins(text[i..], QUESTION, BACKSLASH) then i + 3 else i + 2))
    else if Begins(text[i..], HASH, BACKSLASH) then Skim(text, CharacterEnd(text, Min(|text|, i + 3)))
    else if StartsCharacter(text, i) then Skim(text, CharacterEnd(text, Min(|text|, i + 2)))
    else
      var rest := Skim(text, i + 1);
      if IsBracket(text[i]) then rest.(brackets := [Place(text[i], i)] + rest.brackets) else rest
  }

  /** Behind a line comment that goes on at `i`. */
  function AfterLine(text: Text, i: nat): (r: Skimmed)
    requires i <= |text|
    ensures OnlyBrackets(r.brackets)
    decreases |text| - i, 2
  {
    var end := i + LineLength(text[i..]);
    if end == |text| then Skimmed([], Nothing) else Skim(text, end + 1)
  }

  /** Behind a block comment that goes on at `i`, `depth` levels deep. */
  function AfterBlock(text: Text, i: nat, depth: nat): (r: Skimmed)
    requires i <= |text|
    ensures OnlyBrackets(r.brackets)
    decreases |text| - i, 2
  {
    var r := BlockLength(text[i..], depth);
    if r.1 then Skim(text, i + r.0) else Skimmed([], AComment)
  }

  /** Behind a string that goes on at `i`. */
  function AfterString(text: Text, i: nat): (r: Skimmed)
    requires i <= |text|
    ensures OnlyBrackets(r.brackets)
    decreases |text| - i, 2
  {
    var r := LispLexer.StringLength(text[i..]);
    if r.1 then Skim(text, i + r.0) else Skimmed([], AString)
  }

  // ---------------------------------------------------------------- the loop

  datatype StructureDiagnostic =
    | UnexpectedCloser(position: nat)
    | UnterminatedString
    | UnterminatedBlockComment
    | UnclosedDelimiter(position: nat)

  /** The flags of the loop. */
  datatype Mode = Code | InLine | InBlock(depth: nat) | InString(escaped: bool)

  /** What is still to come when the loop stands at `i` in some mode. */
  function ToCome(text: Text, i: nat, mode: Mode): Skimmed
    requires i <= |text|
  {
    match mode
    case Code => Skim(text, i)
    case InLine => AfterLine(text, i)
    case InBlock(depth) => AfterBlock(text, i, depth)
    case InString(escaped) =>
      if !escaped then AfterString(text, i) else if i == |text| then Skimmed([], AString) else AfterString(text, i + 1)
  }

  lemma {:induction false} LineStep(text: Text, i: nat)
    requires i < |text|
    ensures AfterLine(text, i) == if text[i] == NEWLINE then Skim(text, i + 1) else AfterLine(text, i + 1)
  {
    assert text[i..][1..] == text[i + 1..];
  }

  lemma {:induction false} BlockStep(text: Text, i: nat, depth: nat)
    requires i < |text| && depth > 0
    ensures Begins(text[i..], HASH, BAR) ==> AfterBlock(text, i, depth) == AfterBlock(text, i + 2, depth + 1)
    ensures Begins(text[i..], BAR, HASH) ==>
              AfterBlock(text, i, depth) == if depth == 1 then Skim(text, i + 2) else AfterBlock(text, i + 2, depth - 1)
    ensures !Begins(text[i..], HASH, BAR) && !Begins(text[i..], BAR, HASH) ==> AfterBlock(text, i, depth) == AfterBlock(text, i + 1, depth)
  {
    assert text[i..][1..] == text[i + 1..];
    if i + 2 <= |text| { assert text[i..][2..] == text[i + 2..]; }
  }

  lemma {:induction false} StringStep(text: Text, i: nat)
    requires i < |text|
    ensures AfterString(text, i) == if text[i] == BACKSLASH then ToCome(text, i + 1, InString(true))
                                    else if text[i] == QUOTE then Skim(text, i + 1) else AfterString(text, i + 1)
  {
    assert text[i..][1..] == text[i + 1..];
    if i + 2 <= |text| { assert text[i..][2..] == text[i + 2..]; }
  }

  /** One pass of the loop inside a comment or a string. */
  method SkipStep(text: Text, index: nat, mode: Mode) returns (index': nat, mode': Mode)
    requires index < |text| && mode != Code && (mode.InBlock? ==> mode.depth > 0)
    ensures index < index' <= |text| && (mode'.InBlock? ==> mode'.depth > 0)
    ensures ToCome(text, index', mode') == ToCome(text, index, mode)
  {
    var unit := text[index];
    index', mode' := index + 1, mode;
    match mode
    case InLine =>
      LineStep(text, index);
      if unit == NEWLINE { mode' := Code; }
    case InBlock(depth) =>
      BlockStep(text, index, depth);
      if Begins(text[index..], HASH, BAR) {
        index', mode' := index + 2, InBlock(depth + 1);
      } else if Begins(text[index..], BAR, HASH) {
        index', mode' := index + 2, if depth == 1 then Code else InBlock(depth - 1);
      }
    case InString(escaped) =>
      if escaped {
        mode' := InString(false);
      } else {
        StringStep(text, index);
        if unit == BACKSLASH { mode' := InString(true); } else if unit == QUOTE { mode' := Code; }
      }
  }

  method ReadName(text: Text, k: nat) returns (end: nat)
    requires 0 < k <= |text|
    ensures end == CharacterEnd(text, k)
  {
    end := k;
    if IsBracket(text[k - 1]) { return; }
    while end < |text| && !EndsName(text[end])
      invariant k <= end <= |text| && NameRun(text, end) == NameRun(text, k)
    {
      end := end + 1;
    }
  }

  /** One pass of the loop in code; a bracket is left to the caller. */
  method CodeStep(text: Text, index: nat) returns (index': nat, mode': Mode, bracket: bool)
    requires index < |text|
    ensures index < index' <= |text| && (mode'.InBlock? ==> mode'.depth > 0) && (mode'.InString? ==> !mode'.escaped)
    ensures bracket ==> IsBracket(text[index])
    ensures Skim(text, index) == var rest := ToCome(text, index', mode');
                                 if bracket then rest.(brackets := [Place(text[index], index)] + rest.brackets) else rest
  {
    var unit := text[index];
    mode', bracket := Code, false;
    if unit == SEMICOLON {
      index', mode' := index + 1, InLine;
    } else if Begins(text[index..], HASH, BAR) {
      index', mode' := index + 2, InBlock(1);
    } else if unit == QUOTE {
      index', mode' := index + 1, InString(false);
    } else if unit == QUESTION {
      index' := Min(|text|, if Begins(text[index..], QUESTION, BACKSLASH) then index + 3 else index + 2);
    } else if Begins(text[index..], HASH, BACKSLASH) {
      index' := ReadName(text, Min(|text|, index + 3));
    } else if StartsCharacter(text, index) {
      index' := ReadName(text, Min(|text|, index + 2));
    } else {
      index' := index + 1;
      bracket := IsBracket(unit);
    }
  }

  /** One diagnostic for each of the places. */
  ghost function Closers(places: seq<nat>): seq<StructureDiagnostic> {
    seq(|places|, k requires 0 <= k < |places| => UnexpectedCloser(places[k]))
  }

  /** The openers of a word that are never closed, the last first. */
  ghost function Unclosed(bs: seq<Place>): seq<StructureDiagnostic> {
    var places := LastFirst(Units(bs), |bs|);
    seq(|places|, k requires 0 <= k < |places| => UnclosedDelimiter(bs[places[k]].position))
  }

  /** A string and a comment that do not end. */
  ghost function Said(unended: Unended): seq<StructureDiagnostic> {
    match unended
    case Nothing => []
    case AString => [StructureDiagnostic.UnterminatedString]
    case AComment => [StructureDiagnostic.UnterminatedBlockComment]
  }

  lemma {:induction false} OneMoreCloser(places: seq<nat>, more: seq<nat>)
    ensures Closers(places + more) == Closers(places) + Closers(more)
  {}

  /** A bracket against the stack; a closer that does not fit is refused and leaves the stack as it was. */
  method MatchBracket(b: Place, stack: seq<Place>, ghost open: seq<nat>, ghost seen: seq<Place>)
    returns (stack': seq<Place>, ghost open': seq<nat>, found: seq<StructureDiagnostic>)
    requires IsBracket(b.unit) && Tracks(stack, open, Kept(seen))
    ensures Tracks(stack', open', Kept(seen + [b]))
    ensures Closers(Refused(seen + [b])) == Closers(Refused(seen)) + found
  {
    stack', open', found := stack, open, [];
    ghost var kept := Kept(seen);
    KeptAppend(seen, b);
    if IsOpener(b.unit) {
      TracksPush(stack, open, kept, b);
      stack', open' := stack + [b], open + [|kept|];
      OneMoreCloser(Refused(seen), []);
    } else if stack == [] {
      TracksRefuse(stack, open, kept, b);
      found := [UnexpectedCloser(b.position)];
      OneMoreCloser(Refused(seen), [b.position]);
    } else if Pairs(stack[|stack| - 1].unit, b.unit) {
      TracksPop(stack, open, kept, b);
      stack', open' := stack[..|stack| - 1], open[..|open| - 1];
      OneMoreCloser(Refused(seen), []);
    } else {
      TracksRefuse(stack, open, kept, b);
      found := [UnexpectedCloser(b.position)];
      OneMoreCloser(Refused(seen), [b.position]);
    }
  }

  /** The openers left on the stack, the last first. */
  method NameOpeners(stack: seq<Place>, ghost open: seq<nat>, ghost kept: seq<Place>) returns (found: seq<StructureDiagnostic>)
    requires Tracks(stack, open, kept)
    ensures found == Unclosed(kept) && |found| == |stack|
  {
    found := [];
    ghost var said := Unclosed(kept);
    LastFirstIs(Units(kept), open);
    for k := |stack| downto 0
      invariant |found| == |stack| - k && found == said[..|found|]
    {
      found := found + [UnclosedDelimiter(stack[k].position)];
    }
  }

  lemma {:induction false} NothingRefused(bs: seq<Place>)
    requires Refused(bs) == []
    ensures Kept(bs) == bs
  {
    if bs != [] {
      assert bs == bs[..|bs| - 1] + [bs[|bs| - 1]];
      NothingRefused(bs[..|bs| - 1]);
    }
  }

  lemma {:induction false} BalancedKeepsAll(bs: seq<Place>, rest: Text)
    requires OnlyBrackets(bs) && AllBrackets(rest) && Dyck(Units(bs) + rest)
    ensures Refused(bs) == []
  {
    if bs != [] {
      var front, last := bs[..|bs| - 1], bs[|bs| - 1];
      assert bs == front + [last];
      UnitsAppend(front, last);
      assert Units(front) + ([last.unit] + rest) == Units(bs) + rest;
      BalancedKeepsAll(front, [last.unit] + rest);
      NothingRefused(front);
      KeptAppend(front, last);
    }
  }

  /** No closer is refused and no opener left exactly when the brackets are balanced. */
  lemma {:induction false} NothingNamed(bs: seq<Place>, stack: seq<Place>, open: seq<nat>)
    requires OnlyBrackets(bs) && Tracks(stack, open, Kept(bs))
    ensures Refused(bs) == [] && stack == [] <==> Dyck(Units(bs))
  {
    assert Units(bs) + [] == Units(bs);
    MatchesIsDyck(Units(bs));
    if Dyck(Units(bs)) { BalancedKeepsAll(bs, []); }
    if Refused(bs) == [] {
      NothingRefused(bs);
      assert Matches(Units(bs) + [], []) == Matches([], Units(stack));
    }
  }

  /** What the mode at the end leaves open. */
  function Left(mode: Mode): Unended {
    if mode.InString? then AString else if mode.InBlock? then AComment else Nothing
  }

  /** The loop at `index`: the brackets it has seen and those to come are those that skimming leaves. */
  ghost predicate Stands(text: Text, index: nat, mode: Mode, stack: seq<Place>, found: seq<StructureDiagnostic>,
                         open: seq<nat>, seen: seq<Place>) {
    && index <= |text| && (mode.InBlock? ==> mode.depth > 0)
    && ToCome(text, index, mode).unended == Skim(text, 0).unended
    && seen + ToCome(text, index, mode).brackets == Skim(text, 0).brackets
    && Tracks(stack, open, Kept(seen)) && found == Closers(Refused(seen))
  }

  /** One pass of the loop in code. */
  method Pass(text: Text, index: nat, stack: seq<Place>, found: seq<StructureDiagnostic>, ghost open: seq<nat>, ghost seen: seq<Place>)
    returns (index': nat, mode': Mode, stack': seq<Place>, found': seq<StructureDiagnostic>, ghost open': seq<nat>, ghost seen': seq<Place>)
    requires Stands(text, index, Code, stack, found, open, seen) && index < |text|
    ensures Stands(text, index', mode', stack', found', open', seen') && index < index'
  {
    var bracket;
    stack', found', open', seen' := stack, found, open, seen;
    index', mode', bracket := CodeStep(text, index);
    if bracket {
      var b, more := Place(text[index], index), [];
      ghost var rest := ToCome(text, index', mode').brackets;
      assert seen + ([b] + rest) == (seen + [b]) + rest;
      stack', open', more := MatchBracket(b, stack, open, seen);
      seen', found' := seen + [b], found + more;
    }
  }

  /** The one loop: at the end every bracket was seen, and those that fit nothing were refused. */
  method Walk(text: Text)
    returns (stack: seq<Place>, mode: Mode, found: seq<StructureDiagnostic>, ghost open: seq<nat>)
    ensures var all := Skim(text, 0);
            && Tracks(stack, open, Kept(all.brackets)) && found == Closers(Refused(all.brackets)) && all.unended == Left(mode)
  {
    var index: nat := 0;
    stack, mode, found, open := [], Code, [], [];
    ghost var seen: seq<Place> := [];
    NothingYet();
    while index < |text|
      invariant Stands(text, index, mode, stack, found, open, seen)
      decreases |text| - index
    {
      if mode != Code {
        index, mode := SkipStep(text, index, mode);
      } else {
        index, mode, stack, found, open, seen := Pass(text, index, stack, found, open, seen);
      }
    }
    AtTheEnd(text, mode);
    assert seen == Skim(text, 0).brackets;
  }

  /**
   The whole check: it names the closers after which nothing can become balanced any more, what
   does not end, and the openers that are left; it names nothing exactly for balanced brackets.
   */
  method CheckLispBalance(text: Text) returns (balanced: bool, found: seq<StructureDiagnostic>, formsDepth: nat)
    ensures var all := Skim(text, 0);
            && (balanced <==> all.unended == Nothing && Dyck(Units(all.brackets)))
            && found == Closers(Refused(all.brackets)) + Said(all.unended) + Unclosed(Kept(all.brackets))
            && formsDepth == |Unclosed(Kept(all.brackets))|
  {
    var stack, mode;
    ghost var open, bs := [], Skim(text, 0).brackets;
    stack, mode, found, open := Walk(text);
    NothingNamed(bs, stack, open);
    if mode.InString? { found := found + [StructureDiagnostic.UnterminatedString]; }
    if mode.InBlock? { found := found + [StructureDiagnostic.UnterminatedBlockComment]; }
    var unclosed := NameOpeners(stack, open, Kept(bs));
    found, formsDepth := found + unclosed, |stack|;
    balanced := found == [];
  }

  lemma {:induction false} NothingYet()
    ensures Tracks([], [], Kept([]))
  {
    assert forall v: Text :: [] + v == v;
  }

  lemma {:induction false} AtTheEnd(text: Text, mode: Mode)
    requires mode.InBlock? ==> mode.depth > 0
    ensures ToCome(text, |text|, mode) == Skimmed([], Left(mode))
  {
    assert text[|text|..] == [];
  }
}
