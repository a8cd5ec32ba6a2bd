/**
 Renaming at the level of whole texts: what a second scan sees, exactly when it sees the
 same tokens, and when renaming back restores the source.
 */
module RenameText {
  import opened CodeUnits
  import opened LispLexer
  import opened RenameLexing

  /** The source with every symbol token `from` replaced by `to`; everything else is copied. */
  function Renamed(source: Text, ren: Renaming): Text {
    Flatten(Rename(Lex(source), ren))
  }

  predicate IsOccurrenceToken(token: Token, ren: Renaming) {
    token.kind == SymbolToken && token.value == ren.from
  }

  /** By how much the replacements made before `offset` move what stands there. */
  function DriftBefore(tokens: seq<Token>, offset: int, ren: Renaming): int {
    if tokens == [] then 0
    else (if IsOccurrenceToken(tokens[0], ren) && tokens[0].start < offset then |ren.to| - |ren.from| else 0)
         + DriftBefore(tokens[1..], offset, ren)
  }

  /** `after` is `before` with the symbol replaced and the position moved. */
  predicate Moved(before: Token, after: Token, ren: Renaming, drift: int) {
    && after.kind == before.kind
    && after.value == (if IsOccurrenceToken(before, ren) then ren.to else before.value)
    && after.start == before.start + drift
    && after.end == after.start + |after.value|
  }

  predicate MovedDiagnostic(before: Diagnostic, after: Diagnostic, drift: int) {
    match before
    case UnterminatedBlockComment(o) => after.UnterminatedBlockComment? && after.offset == o + drift
    case UnterminatedString(o) => after.UnterminatedString? && after.offset == o + drift
    case ReaderDiscardFound(o) => after.ReaderDiscardFound? && after.offset == o + drift
  }

  /** The second scan gives the first one's tokens and diagnostics, renamed and moved. */
  predicate PreservesLexing(source: Text, ren: Renaming, trivia: bool) {
    var before, after := Lex(source), Lex(Renamed(source, ren));
    var ts, ts' := Tokens(before, 0, trivia), Tokens(after, 0, trivia);
    TokensKept(ts, ts', ren) && DiagnosticsKept(Diagnostics(before, 0), Diagnostics(after, 0), ts, ren)
  }

  /** The same tokens in the same order, renamed, and moved by the growth in front of them. */
  predicate TokensKept(ts: seq<Token>, ts': seq<Token>, ren: Renaming) {
    |ts'| == |ts| && forall k | 0 <= k < |ts| :: Moved(ts[k], ts'[k], ren, DriftBefore(ts, ts[k].start, ren))
  }

  predicate DiagnosticsKept(ds: seq<Diagnostic>, ds': seq<Diagnostic>, ts: seq<Token>, ren: Renaming) {
    |ds'| == |ds| && forall k | 0 <= k < |ds| :: MovedDiagnostic(ds[k], ds'[k], DriftBefore(ts, ds[k].offset, ren))
  }

  /** Replacing this token makes its surroundings read differently. */
  predicate HazardousToken(source: Text, token: Token, ren: Renaming) {
    && IsOccurrenceToken(token, ren)
    && (|| Begins(ren.to, HASH, UNDERSCORE)
        || (ren.to != [] && ren.to[0] == AT && 0 < token.start <= |source| && source[token.start - 1] == COMMA)
        || (ren.to == [HASH] && token.end < |source| && source[token.end] == APOSTROPHE))
  }

  predicate Hazardous(source: Text, ren: Renaming) {
    exists token | token in Tokens(Lex(source), 0, false) :: HazardousToken(source, token, ren)
  }

  // ---------------------------------------------------------------- offsets

  lemma {:induction false} TokensFrom(ls: seq<Lexeme>, at: nat, trivia: bool)
    ensures forall token | token in Tokens(ls, at, trivia) :: token.start >= at
    ensures forall d | d in Diagnostics(ls, at) :: d.offset >= at
  {
    if ls != [] {
      TokensFrom(ls[1..], at + |ls[0].text|, trivia);
      assert forall token | token in TokenOf(ls[0], at, trivia) :: token.start == at;
    }
  }

  predicate NoneEmpty(ls: seq<Lexeme>) {
    forall x | x in ls :: x.text != []
  }

  lemma {:induction false} WellCutNoneEmpty(ls: seq<Lexeme>)
    requires WellCut(ls)
    ensures NoneEmpty(ls)
  {
    if ls != [] {
      WellCutNoneEmpty(ls[1..]);
      assert ls == [ls[0]] + ls[1..];
    }
  }

  lemma {:induction false} NoDriftYet(tokens: seq<Token>, offset: int, ren: Renaming)
    requires forall token | token in tokens :: token.start >= offset
    ensures DriftBefore(tokens, offset, ren) == 0
  {
    if tokens != [] { NoDriftYet(tokens[1..], offset, ren); }
  }

  /** Behind the first lexeme, its own growth comes before that of the rest. */
  lemma {:induction false} DriftBehind(x: Lexeme, rest: seq<Token>, at: nat, offset: int, trivia: bool, ren: Renaming)
    requires offset > at
    ensures DriftBefore(TokenOf(x, at, trivia) + rest, offset, ren)
         == |RenameOne(x, ren).text| - |x.text| + DriftBefore(rest, offset, ren)
  {
    var head := TokenOf(x, at, trivia);
    if head == [] { assert head + rest == rest; } else { assert (head + rest)[1..] == rest; }
  }

  ghost predicate TokensMoved(ts: seq<Token>, ts': seq<Token>, ren: Renaming, shift: int) {
    |ts'| == |ts| && forall k | 0 <= k < |ts| :: MovedAt(ts, ts', k, ren, shift)
  }

  ghost predicate MovedAt(ts: seq<Token>, ts': seq<Token>, k: nat, ren: Renaming, shift: int)
    requires |ts'| == |ts|
  {
    k < |ts| && Moved(ts[k], ts'[k], ren, shift + DriftBefore(ts, ts[k].start, ren))
  }

  lemma {:induction false} TokenMoves(x: Lexeme, ren: Renaming, at: nat, at': nat, trivia: bool)
    ensures var head, head' := TokenOf(x, at, trivia), TokenOf(RenameOne(x, ren), at', trivia);
            |head| == |head'| <= 1 && (head != [] ==> head[0].start == at && Moved(head[0], head'[0], ren, at' - at))
  {}

  lemma {:induction false} PrependTokens(x: Lexeme, rest: seq<Token>, rest': seq<Token>, ren: Renaming, at: nat, at': nat, trivia: bool)
    requires x.text != [] && forall token | token in rest :: token.start >= at + |x.text|
    requires TokensMoved(rest, rest', ren, at' + |RenameOne(x, ren).text| - at - |x.text|)
    ensures TokensMoved(TokenOf(x, at, trivia) + rest, TokenOf(RenameOne(x, ren), at', trivia) + rest', ren, at' - at)
  {
    var head, head' := TokenOf(x, at, trivia), TokenOf(RenameOne(x, ren), at', trivia);
    var ts, ts' := head + rest, head' + rest';
    TokenMoves(x, ren, at, at', trivia);
    var shift := at' - at;
    forall k | 0 <= k < |ts| ensures MovedAt(ts, ts', k, ren, shift) {
      if k < |head| {
        NoDriftYet(ts, at, ren);
      } else {
        assert ts[k] == rest[k - |head|] && ts'[k] == rest'[k - |head|];
        assert rest[k - |head|] in rest;
        assert MovedAt(rest, rest', k - |head|, ren, at' + |RenameOne(x, ren).text| - at - |x.text|);
        DriftBehind(x, rest, at, ts[k].start, trivia, ren);
      }
    }
  }

  lemma {:induction false} TokensCons(ls: seq<Lexeme>, ren: Renaming, at: nat, at': nat, trivia: bool)
    requires ls != []
    ensures var x, x' := ls[0], RenameOne(ls[0], ren);
            && Tokens(ls, at, trivia) == TokenOf(x, at, trivia) + Tokens(ls[1..], at + |x.text|, trivia)
            && Tokens(Rename(ls, ren), at', trivia) == TokenOf(x', at', trivia) + Tokens(Rename(ls[1..], ren), at' + |x'.text|, trivia)
  {
    assert Rename(ls, ren)[1..] == Rename(ls[1..], ren);
  }

  lemma {:induction false} MovedBehind(ls: seq<Lexeme>, ren: Renaming, at: nat, at': nat, trivia: bool, rest: seq<Token>, rest': seq<Token>)
    requires ls != [] && ls[0].text != []
    requires rest == Tokens(ls[1..], at + |ls[0].text|, trivia)
    requires TokensMoved(rest, rest', ren, at' + |RenameOne(ls[0], ren).text| - at - |ls[0].text|)
    ensures TokensMoved(TokenOf(ls[0], at, trivia) + rest, TokenOf(RenameOne(ls[0], ren), at', trivia) + rest', ren, at' - at)
  {
    TokensFrom(ls[1..], at + |ls[0].text|, trivia);
    PrependTokens(ls[0], rest, rest', ren, at, at', trivia);
  }

  lemma {:induction false} RenamedTokensMove(ls: seq<Lexeme>, ren: Renaming, at: nat, at': nat, trivia: bool)
    requires NoneEmpty(ls)
    ensures TokensMoved(Tokens(ls, at, trivia), Tokens(Rename(ls, ren), at', trivia), ren, at' - at)
  {
    if ls != [] {
      var x, x' := ls[0], RenameOne(ls[0], ren);
      var next, next' := at + |x.text|, at' + |x'.text|;
      RenamedTokensMove(ls[1..], ren, next, next', trivia);
      MovedBehind(ls, ren, at, at', trivia, Tokens(ls[1..], next, trivia), Tokens(Rename(ls[1..], ren), next', trivia));
      TokensCons(ls, ren, at, at', trivia);
    }
  }

  ghost predicate DiagnosticsMoved(ds: seq<Diagnostic>, ds': seq<Diagnostic>, ts: seq<Token>, ren: Renaming, shift: int) {
    |ds'| == |ds| && forall k | 0 <= k < |ds| :: DiagnosticMovedAt(ds, ds', k, ts, ren, shift)
  }

  ghost predicate DiagnosticMovedAt(ds: seq<Diagnostic>, ds': seq<Diagnostic>, k: nat, ts: seq<Token>, ren: Renaming, shift: int)
    requires |ds'| == |ds|
  {
    k < |ds| && MovedDiagnostic(ds[k], ds'[k], shift + DriftBefore(ts, ds[k].offset, ren))
  }

  lemma {:induction false} PrependDiagnostics(x: Lexeme, tail: seq<Diagnostic>, tail': seq<Diagnostic>, rest: seq<Token>, ren: Renaming,
                           at: nat, at': nat, trivia: bool)
    requires x.text != [] && forall token | token in rest :: token.start >= at + |x.text|
    requires forall d | d in tail :: d.offset >= at + |x.text|
    requires DiagnosticsMoved(tail, tail', rest, ren, at' + |RenameOne(x, ren).text| - at - |x.text|)
    ensures DiagnosticsMoved(DiagnosticOf(x, at) + tail, DiagnosticOf(RenameOne(x, ren), at') + tail',
                             TokenOf(x, at, trivia) + rest, ren, at' - at)
  {
    var head, head' := DiagnosticOf(x, at), DiagnosticOf(RenameOne(x, ren), at');
    var ds, ds', ts := head + tail, head' + tail', TokenOf(x, at, trivia) + rest;
    var shift, shift' := at' - at, at' + |RenameOne(x, ren).text| - at - |x.text|;
    forall k | 0 <= k < |ds| ensures DiagnosticMovedAt(ds, ds', k, ts, ren, shift) {
      if k < |head| {
        NoDriftYet(ts, at, ren);
      } else {
        assert ds[k] == tail[k - |head|] && ds'[k] == tail'[k - |head|];
        assert tail[k - |head|] in tail && DiagnosticMovedAt(tail, tail', k - |head|, rest, ren, shift');
        DriftBehind(x, rest, at, ds[k].offset, trivia, ren);
      }
    }
  }

  lemma {:induction false} DiagnosticsCons(ls: seq<Lexeme>, ren: Renaming, at: nat, at': nat)
    requires ls != []
    ensures var x, x' := ls[0], RenameOne(ls[0], ren);
            && Diagnostics(ls, at) == DiagnosticOf(x, at) + Diagnostics(ls[1..], at + |x.text|)
            && Diagnostics(Rename(ls, ren), at') == DiagnosticOf(x', at') + Diagnostics(Rename(ls[1..], ren), at' + |x'.text|)
  {
    assert Rename(ls, ren)[1..] == Rename(ls[1..], ren);
  }

  lemma {:induction false} DiagnosticsMovedBehind(ls: seq<Lexeme>, ren: Renaming, at: nat, at': nat, trivia: bool,
                                                  tail: seq<Diagnostic>, tail': seq<Diagnostic>, rest: seq<Token>)
    requires ls != [] && ls[0].text != []
    requires tail == Diagnostics(ls[1..], at + |ls[0].text|) && rest == Tokens(ls[1..], at + |ls[0].text|, trivia)
    requires DiagnosticsMoved(tail, tail', rest, ren, at' + |RenameOne(ls[0], ren).text| - at - |ls[0].text|)
    ensures DiagnosticsMoved(DiagnosticOf(ls[0], at) + tail, DiagnosticOf(RenameOne(ls[0], ren), at') + tail',
                             TokenOf(ls[0], at, trivia) + rest, ren, at' - at)
  {
    TokensFrom(ls[1..], at + |ls[0].text|, trivia);
    PrependDiagnostics(ls[0], tail, tail', rest, ren, at, at', trivia);
  }

  lemma {:induction false} RenamedDiagnosticsMove(ls: seq<Lexeme>, ren: Renaming, at: nat, at': nat, trivia: bool)
    requires NoneEmpty(ls)
    ensures DiagnosticsMoved(Diagnostics(ls, at), Diagnostics(Rename(ls, ren), at'), Tokens(ls, at, trivia), ren, at' - at)
  {
    if ls != [] {
      var next, next' := at + |ls[0].text|, at' + |RenameOne(ls[0], ren).text|;
      RenamedDiagnosticsMove(ls[1..], ren, next, next', trivia);
      DiagnosticsMovedBehind(ls, ren, at, at', trivia, Diagnostics(ls[1..], next), Diagnostics(Rename(ls[1..], ren), next'),
                             Tokens(ls[1..], next, trivia));
      DiagnosticsCons(ls, ren, at, at');
      TokensCons(ls, ren, at, at', trivia);
    }
  }

  // ---------------------------------------------------------------- hazards as a caller sees them

  lemma {:induction false} ClosedCommentEnd(t: Text, depth: nat)
    requires depth > 0 && BlockLength(t, depth).1
    ensures var n := BlockLength(t, depth).0; n > 0 && t[n - 1] == HASH
    decreases |t|
  {
    if Begins(t, HASH, BAR) { ClosedCommentEnd(t[2..], depth + 1); }
    else if Begins(t, BAR, HASH) { if depth > 1 { ClosedCommentEnd(t[2..], depth - 1); } }
    else { ClosedCommentEnd(t[1..], depth); }
  }

  lemma {:induction false} ClosedStringEnd(t: Text)
    requires StringLength(t).1
    ensures var n := StringLength(t).0; n > 0 && t[n - 1] == QUOTE
    decreases |t|
  {
    if t[0] == BACKSLASH { ClosedStringEnd(t[if |t| >= 2 then 2 else 1..]); }
    else if t[0] != QUOTE { ClosedStringEnd(t[1..]); }
  }

  lemma {:induction false} EnclosedEnd(x: Lexeme, r: Text)
    requires x.text != [] && Head(x.text + r) == x && x.closed && x.kind in {BlockComment, Str}
    ensures x.text[|x.text| - 1] in {HASH, QUOTE}
  {
    var t := x.text + r;
    assert t[..|x.text|] == x.text;
    if x.kind == BlockComment {
      assert Begins(t, HASH, BAR);
      ClosedCommentEnd(t[2..], 1);
      assert |x.text| == BlockLength(t[2..], 1).0 + 2;
      assert t[2..][|x.text| - 3] == x.text[|x.text| - 1];
    } else {
      assert t[0] == QUOTE;
      ClosedStringEnd(t[1..]);
      assert |x.text| == StringLength(t[1..]).0 + 1;
      assert t[1..][|x.text| - 2] == x.text[|x.text| - 1];
    }
  }

  lemma {:induction false} SimpleEnd(x: Lexeme, r: Text)
    requires x.text != [] && Head(x.text + r) == x && x.kind in {Space, Discard, Reader, Delimiter}
    ensures x.text[|x.text| - 1] == COMMA <==> x.kind == Delimiter && x.text == [COMMA]
  {
    assert (x.text + r)[..|x.text|] == x.text;
  }

  lemma {:induction false} AtomEnd(x: Lexeme, r: Text)
    requires x.text != [] && Head(x.text + r) == x && x.kind in {Number, Symbol}
    ensures x.text[|x.text| - 1] != COMMA
  {
    AtomLengthSplits(x.text + r);
    assert (x.text + r)[..|x.text|] == x.text;
  }

  /** Only a comma token ends in a comma right in front of an occurrence. */
  lemma {:induction false} CommaInFront(ls: seq<Lexeme>, ren: Renaming)
    requires WellCut(ls) && |ls| >= 2 && IsOccurrence(ls[1], ren)
    ensures ls[0].text[|ls[0].text| - 1] == COMMA <==> ls[0].kind == Delimiter && ls[0].text == [COMMA]
  {
    var x, r := ls[0], Flatten(ls[1..]);
    BehindLexeme(x, r);
    assert Head(r) == ls[1];
    if x.kind in {BlockComment, Str} {
      EnclosedEnd(x, r);
    } else if x.kind in {Number, Symbol} {
      AtomEnd(x, r);
    } else if x.kind != LineComment {
      SimpleEnd(x, r);
    }
  }

  ghost predicate SomeHazardousToken(source: Text, tokens: seq<Token>, ren: Renaming) {
    exists token | token in tokens :: HazardousToken(source, token, ren)
  }

  /** The units around the first lexeme behind the prefix `p`. */
  lemma {:induction false} UnitsAround(p: Text, ls: seq<Lexeme>, s: Text, end: nat)
    requires NoneEmpty(ls) && ls != [] && s == p + Flatten(ls) && end == |p| + |ls[0].text|
    ensures p != [] ==> s[|p| - 1] == p[|p| - 1]
    ensures |p| < end <= |s|
    ensures if |ls| > 1 then end < |s| && s[end] == ls[1].text[0] else end == |s|
  {
    var behind := Flatten(ls[1..]);
    assert s == (p + ls[0].text) + behind;
    if |ls| > 1 { assert behind[0] == ls[1].text[0]; }
  }

  lemma {:induction false} OccurrenceHazard(p: Text, ls: seq<Lexeme>, ren: Renaming)
    requires WellCut(ls) && ls != [] && IsOccurrence(ls[0], ren) && ValidTarget(ren.to)
    ensures HazardousToken(p + Flatten(ls), TokenOf(ls[0], |p|, false)[0], ren)
       <==> Begins(ren.to, HASH, UNDERSCORE) || TailHazard(ls[0], ls[1..], ren)
            || (ren.to[0] == AT && p != [] && p[|p| - 1] == COMMA)
  {
    WellCutNoneEmpty(ls);
    var s, end := p + Flatten(ls), |p| + |ls[0].text|;
    UnitsAround(p, ls, s, end);
    OccurrenceUnits(p, ls, ren, s, end);
  }

  lemma {:induction false} OccurrenceUnits(p: Text, ls: seq<Lexeme>, ren: Renaming, s: Text, end: nat)
    requires NoneEmpty(ls) && ls != [] && IsOccurrence(ls[0], ren) && ren.to != [] && end == |p| + |ls[0].text| <= |s|
    requires p != [] ==> s[|p| - 1] == p[|p| - 1]
    requires if |ls| > 1 then end < |s| && s[end] == ls[1].text[0] else end == |s|
    ensures HazardousToken(s, TokenOf(ls[0], |p|, false)[0], ren)
       <==> Begins(ren.to, HASH, UNDERSCORE) || TailHazard(ls[0], ls[1..], ren)
            || (ren.to[0] == AT && p != [] && p[|p| - 1] == COMMA)
  {
    assert TokenOf(ls[0], |p|, false) == [Token(SymbolToken, ls[0].text, |p|, end)];
  }

  lemma {:induction false} SomeHazardSplits(source: Text, a: seq<Token>, b: seq<Token>, ren: Renaming)
    ensures SomeHazardousToken(source, a + b, ren)
       <==> SomeHazardousToken(source, a, ren) || SomeHazardousToken(source, b, ren)
  {
    assert forall token :: token in a + b <==> token in a || token in b;
  }

  lemma {:induction false} FirstTokenHazard(p: Text, ls: seq<Lexeme>, ren: Renaming)
    requires WellCut(ls) && ls != [] && ValidTarget(ren.to)
    ensures SomeHazardousToken(p + Flatten(ls), TokenOf(ls[0], |p|, false), ren)
       <==> (&& IsOccurrence(ls[0], ren)
             && (|| Begins(ren.to, HASH, UNDERSCORE)
                 || TailHazard(ls[0], ls[1..], ren)
                 || (ren.to[0] == AT && p != [] && p[|p| - 1] == COMMA)))
  {
    var head := TokenOf(ls[0], |p|, false);
    if IsOccurrence(ls[0], ren) {
      OccurrenceHazard(p, ls, ren);
      assert head[0] in head && forall token | token in head :: token == head[0];
    } else {
      assert forall token | token in head :: !IsOccurrenceToken(token, ren);
    }
  }

  predicate CommaBehind(p: Text, ls: seq<Lexeme>, ren: Renaming) {
    && p != [] && p[|p| - 1] == COMMA
    && ls != [] && IsOccurrence(ls[0], ren)
    && ren.to != [] && ren.to[0] == AT
  }

  lemma {:induction false} CommaIsVisible(p: Text, ls: seq<Lexeme>, ren: Renaming)
    requires WellCut(ls) && ls != []
    ensures CommaBehind(p + ls[0].text, ls[1..], ren) <==> CommaHazard(ls[0], ls[1..], ren)
  {
    var x, p2 := ls[0], p + ls[0].text;
    assert p2[|p2| - 1] == x.text[|x.text| - 1];
    if |ls| >= 2 && IsOccurrence(ls[1], ren) { CommaInFront(ls, ren); }
  }

  lemma {:induction false} ShiftPrefix(p: Text, ls: seq<Lexeme>)
    requires ls != []
    ensures (p + ls[0].text) + Flatten(ls[1..]) == p + Flatten(ls)
    ensures Tokens(ls, |p|, false) == TokenOf(ls[0], |p|, false) + Tokens(ls[1..], |p + ls[0].text|, false)
  {}

  lemma {:induction false} HazardSplits(p: Text, ls: seq<Lexeme>, ren: Renaming)
    requires WellCut(ls) && ls != [] && ValidTarget(ren.to)
    ensures SomeHazardousToken(p + Flatten(ls), TokenOf(ls[0], |p|, false), ren)
            || Hazard(ls[1..], ren) || CommaBehind(p + ls[0].text, ls[1..], ren)
       <==> Hazard(ls, ren) || CommaBehind(p, ls, ren)
  {
    CommaIsVisible(p, ls, ren);
    FirstTokenHazard(p, ls, ren);
  }

  /** The hazards of a lexeme list behind the prefix `p` are those its tokens show in the text. */
  lemma {:induction false} HazardsAreVisible(p: Text, ls: seq<Lexeme>, ren: Renaming)
    requires WellCut(ls) && ValidTarget(ren.to)
    ensures SomeHazardousToken(p + Flatten(ls), Tokens(ls, |p|, false), ren) <==> Hazard(ls, ren) || CommaBehind(p, ls, ren)
    decreases |ls|
  {
    if ls != [] {
      var p2 := p + ls[0].text;
      HazardsAreVisible(p2, ls[1..], ren);
      ShiftPrefix(p, ls);
      SomeHazardSplits(p + Flatten(ls), TokenOf(ls[0], |p|, false), Tokens(ls[1..], |p2|, false), ren);
      HazardSplits(p, ls, ren);
    }
  }

  lemma {:induction false} HazardousIsHazard(source: Text, ren: Renaming)
    requires ValidTarget(ren.to)
    ensures Hazardous(source, ren) <==> Hazard(Lex(source), ren)
  {
    LexIsWellCut(source);
    FlattenLex(source);
    HazardsAreVisible([], Lex(source), ren);
    assert [] + Flatten(Lex(source)) == source;
  }

  // ---------------------------------------------------------------- the theorems

  lemma {:induction false} SafeRenameLexes(source: Text, ren: Renaming)
    requires ValidTarget(ren.to) && !Hazardous(source, ren)
    ensures Lex(Renamed(source, ren)) == Rename(Lex(source), ren)
  {
    HazardousIsHazard(source, ren);
    LexIsWellCut(source);
    RenameKeepsCut(Lex(source), ren);
    WellCutIsLex(Rename(Lex(source), ren));
  }

  /** Equal values at the moved places make equal tokens. */
  lemma {:induction false} MovedTokensUnique(ts: seq<Token>, a: seq<Token>, b: seq<Token>, ren: Renaming)
    requires TokensMoved(ts, a, ren, 0) && TokensMoved(ts, b, ren, 0)
    ensures a == b
  {
    forall k | 0 <= k < |ts| ensures a[k] == b[k] {
      assert MovedAt(ts, a, k, ren, 0) && MovedAt(ts, b, k, ren, 0);
    }
  }

  lemma {:induction false} TokensMovedMeans(ts: seq<Token>, ts': seq<Token>, ren: Renaming)
    ensures TokensMoved(ts, ts', ren, 0) <==> TokensKept(ts, ts', ren)
  {
    if TokensMoved(ts, ts', ren, 0) {
      forall k | 0 <= k < |ts| ensures Moved(ts[k], ts'[k], ren, DriftBefore(ts, ts[k].start, ren)) {
        assert MovedAt(ts, ts', k, ren, 0);
      }
    }
  }

  lemma {:induction false} OtherTokensNotKept(ts: seq<Token>, ts': seq<Token>, renamed: seq<Token>, ren: Renaming)
    requires TokensMoved(ts, renamed, ren, 0) && ts' != renamed
    ensures !TokensKept(ts, ts', ren)
  {
    TokensMovedMeans(ts, ts', ren);
    if TokensKept(ts, ts', ren) { MovedTokensUnique(ts, ts', renamed, ren); }
  }

  lemma {:induction false} DiagnosticsMovedMeans(ds: seq<Diagnostic>, ds': seq<Diagnostic>, ts: seq<Token>, ren: Renaming)
    requires DiagnosticsMoved(ds, ds', ts, ren, 0)
    ensures DiagnosticsKept(ds, ds', ts, ren)
  {
    forall k | 0 <= k < |ds| ensures MovedDiagnostic(ds[k], ds'[k], DriftBefore(ts, ds[k].offset, ren)) {
      assert DiagnosticMovedAt(ds, ds', k, ts, ren, 0);
    }
  }

  /** The tokens and diagnostics of a lexeme list and of the renamed list. */
  lemma {:induction false} BothMove(ls: seq<Lexeme>, ren: Renaming, trivia: bool)
    returns (ts: seq<Token>, ts': seq<Token>, ds: seq<Diagnostic>, ds': seq<Diagnostic>)
    requires NoneEmpty(ls)
    ensures ts == Tokens(ls, 0, trivia) && ts' == Tokens(Rename(ls, ren), 0, trivia)
    ensures ds == Diagnostics(ls, 0) && ds' == Diagnostics(Rename(ls, ren), 0)
    ensures TokensMoved(ts, ts', ren, 0) && DiagnosticsMoved(ds, ds', ts, ren, 0)
  {
    ts, ts', ds, ds' := Tokens(ls, 0, trivia), Tokens(Rename(ls, ren), 0, trivia), Diagnostics(ls, 0), Diagnostics(Rename(ls, ren), 0);
    assert TokensMoved(ts, ts', ren, 0) by { RenamedTokensMove(ls, ren, 0, 0, trivia); }
    assert DiagnosticsMoved(ds, ds', ts, ren, 0) by { RenamedDiagnosticsMove(ls, ren, 0, 0, trivia); }
  }

  /** The tokens found in the renamed text, which are not the renamed ones. */
  lemma {:induction false} OtherTokens(ls: seq<Lexeme>, ren: Renaming, trivia: bool, renamed: seq<Token>) returns (read: seq<Token>)
    requires ValidTarget(ren.to) && WellCut(ls) && Hazard(ls, ren) && renamed == Tokens(Rename(ls, ren), 0, trivia)
    ensures read == Tokens(Lex(Flatten(Rename(ls, ren))), 0, trivia) && read != renamed
  {
    read := Tokens(Lex(Flatten(Rename(ls, ren))), 0, trivia);
    HazardBreaksTokens(ls, ren, 0, trivia);
  }

  lemma {:induction false} HazardBreaksKeeping(ls: seq<Lexeme>, ren: Renaming, trivia: bool)
    requires ValidTarget(ren.to) && WellCut(ls) && Hazard(ls, ren)
    ensures !TokensKept(Tokens(ls, 0, trivia), Tokens(Lex(Flatten(Rename(ls, ren))), 0, trivia), ren)
  {
    WellCutNoneEmpty(ls);
    var ts, renamed, ds, ds' := BothMove(ls, ren, trivia);
    var read := OtherTokens(ls, ren, trivia, renamed);
    OtherTokensNotKept(ts, read, renamed, ren);
  }

  lemma {:induction false} HazardousBreaks(source: Text, ren: Renaming, trivia: bool)
    requires ValidTarget(ren.to) && Hazardous(source, ren)
    ensures !PreservesLexing(source, ren, trivia)
  {
    LexIsWellCut(source);
    HazardousIsHazard(source, ren);
    HazardBreaksKeeping(Lex(source), ren, trivia);
  }

  lemma {:induction false} MovedIsKept(ts: seq<Token>, ts': seq<Token>, ds: seq<Diagnostic>, ds': seq<Diagnostic>, ren: Renaming)
    requires TokensMoved(ts, ts', ren, 0) && DiagnosticsMoved(ds, ds', ts, ren, 0)
    ensures TokensKept(ts, ts', ren) && DiagnosticsKept(ds, ds', ts, ren)
  {
    TokensMovedMeans(ts, ts', ren);
    DiagnosticsMovedMeans(ds, ds', ts, ren);
  }

  lemma {:induction false} SafePreserves(source: Text, ren: Renaming, trivia: bool)
    requires ValidTarget(ren.to) && !Hazardous(source, ren)
    ensures PreservesLexing(source, ren, trivia)
  {
    LexIsWellCut(source);
    WellCutNoneEmpty(Lex(source));
    var ts, ts', ds, ds' := BothMove(Lex(source), ren, trivia);
    MovedIsKept(ts, ts', ds, ds', ren);
    SafeRenameLexes(source, ren);
  }

  /**
   Scanning the renamed text gives the old tokens and diagnostics, renamed and moved,
   exactly when no occurrence is hazardous.
   */
  lemma {:induction false} RenamePreservesLexing(source: Text, ren: Renaming, trivia: bool)
    requires ValidTarget(ren.to)
    ensures PreservesLexing(source, ren, trivia) <==> !Hazardous(source, ren)
  {
    if Hazardous(source, ren) { HazardousBreaks(source, ren, trivia); } else { SafePreserves(source, ren, trivia); }
  }

  /** A pair of names for which no source is hazardous. */
  predicate Compatible(ren: Renaming) {
    || Begins(ren.from, HASH, UNDERSCORE)
    || (&& !Begins(ren.to, HASH, UNDERSCORE)
        && (ren.to != [] && ren.to[0] == AT ==> ren.from != [] && ren.from[0] == AT)
        && (ren.to == [HASH] ==> ren.from == [HASH]))
  }

  lemma {:induction false} LoneSymbol(name: Text, r: Text)
    requires ValidTarget(name) && !Begins(name, HASH, UNDERSCORE)
    requires AtEdge(r) && !(name == [HASH] && r != [] && r[0] == APOSTROPHE)
    ensures Lex(name + r) == [Lexeme(Symbol, name, true)] + Lex(r)
  {
    SymbolHead(name, r);
    assert (name + r)[|name|..] == r;
  }

  /** A source on which an incompatible pair goes wrong. */
  function Witness(ren: Renaming): Text {
    if Begins(ren.to, HASH, UNDERSCORE) then ren.from
    else if ren.to != [] && ren.to[0] == AT then [COMMA] + ren.from
    else ren.from + [APOSTROPHE]
  }

  lemma {:induction false} WitnessIsHazardous(ren: Renaming)
    requires ValidTarget(ren.from) && ValidTarget(ren.to) && !Compatible(ren)
    ensures Hazardous(Witness(ren), ren)
  {
    var s, name := Witness(ren), ren.from;
    var symbol := Lexeme(Symbol, name, true);
    assert name + [] == name;
    if Begins(ren.to, HASH, UNDERSCORE) {
      LoneSymbol(name, []);
      assert Hazard(Lex(s), ren);
    } else if ren.to[0] == AT {
      LoneSymbol(name, []);
      assert s[0] == COMMA && s[1] == name[0] && s[1..] == name && s[..1] == [COMMA];
      assert Head(s) == Lexeme(Delimiter, [COMMA], true);
      assert Lex(s) == [Lexeme(Delimiter, [COMMA], true)] + Lex(name);
      assert CommaHazard(Lex(s)[0], Lex(s)[1..], ren);
    } else {
      LoneSymbol(name, [APOSTROPHE]);
      assert Lex([APOSTROPHE])[0].text == [APOSTROPHE];
      assert Lex(s)[1..] == Lex([APOSTROPHE]);
      assert TailHazard(Lex(s)[0], Lex(s)[1..], ren);
    }
    HazardousIsHazard(s, ren);
  }

  /** A discard prefix is never part of a symbol token, and an `@` never starts one behind a comma. */
  lemma {:induction false} CompatibleHasNoHazard(ls: seq<Lexeme>, ren: Renaming)
    requires WellCut(ls) && ValidTarget(ren.to) && Compatible(ren)
    ensures !Hazard(ls, ren)
  {
    if ls != [] {
      CompatibleHasNoHazard(ls[1..], ren);
      var x, r := ls[0], Flatten(ls[1..]);
      assert Flatten(ls) == x.text + r;
      BehindLexeme(x, r);
      if |ls| > 1 { assert r[0] == ls[1].text[0]; }
      if IsOccurrence(x, ren) && |x.text| >= 2 { assert Flatten(ls)[1] == x.text[1]; }
      if |ls| > 1 && IsOccurrence(ls[1], ren) && |ls[1].text| >= 2 {
        assert r == ls[1].text + Flatten(ls[1..][1..]);
        assert r[1] == ls[1].text[1];
      }
    }
  }

  /** The side conditions on the pair of names are the right ones: they say when every source is safe. */
  lemma {:induction false} SafeForEverySource(ren: Renaming)
    requires ValidTarget(ren.from) && ValidTarget(ren.to)
    ensures (forall source, trivia :: PreservesLexing(source, ren, trivia)) <==> Compatible(ren)
  {
    if Compatible(ren) {
      forall source, trivia ensures PreservesLexing(source, ren, trivia) {
        LexIsWellCut(source);
        CompatibleHasNoHazard(Lex(source), ren);
        HazardousIsHazard(source, ren);
        RenamePreservesLexing(source, ren, trivia);
      }
    } else {
      WitnessIsHazardous(ren);
      RenamePreservesLexing(Witness(ren), ren, false);
    }
  }

  // ---------------------------------------------------------------- renaming back

  function Back(ren: Renaming): Renaming {
    Renaming(ren.to, ren.from)
  }

  predicate HasSymbol(ls: seq<Lexeme>, name: Text) {
    exists x | x in ls :: x.kind == Symbol && x.text == name
  }

  /** There and back over the same lexemes. */
  function Returned(ls: seq<Lexeme>, ren: Renaming): seq<Lexeme> {
    Rename(Rename(ls, ren), Back(ren))
  }

  lemma {:induction false} ReturnedStep(ls: seq<Lexeme>, ren: Renaming)
    requires ls != []
    ensures Returned(ls, ren) == [RenameOne(RenameOne(ls[0], ren), Back(ren))] + Returned(ls[1..], ren)
    ensures Flatten(Returned(ls, ren)) == RenameOne(RenameOne(ls[0], ren), Back(ren)).text + Flatten(Returned(ls[1..], ren))
  {
    assert Rename(ls, ren)[1..] == Rename(ls[1..], ren);
    assert Returned(ls, ren)[1..] == Returned(ls[1..], ren);
  }

  lemma {:induction false} ReturnLength(ls: seq<Lexeme>, ren: Renaming)
    ensures |ren.from| >= |ren.to| ==> |Flatten(Returned(ls, ren))| >= |Flatten(ls)|
    ensures |ren.from| <= |ren.to| ==> |Flatten(Returned(ls, ren))| <= |Flatten(ls)|
    ensures |ren.from| != |ren.to| && HasSymbol(ls, ren.to) ==> |Flatten(Returned(ls, ren))| != |Flatten(ls)|
  {
    if ls != [] {
      ReturnLength(ls[1..], ren);
      ReturnedStep(ls, ren);
      assert HasSymbol(ls, ren.to) ==> (ls[0].kind == Symbol && ls[0].text == ren.to) || HasSymbol(ls[1..], ren.to);
    }
  }

  lemma {:induction false} SplitEqual(a: Text, b: Text, x: Text, y: Text)
    requires |a| == |b| && a + x == b + y
    ensures a == b && x == y
  {
    assert (a + x)[..|a|] == a && (b + y)[..|b|] == b;
    assert (a + x)[|a|..] == x && (b + y)[|b|..] == y;
  }

  lemma {:induction false} ReturnRestores(ls: seq<Lexeme>, ren: Renaming)
    ensures Flatten(Returned(ls, ren)) == Flatten(ls) <==> ren.from == ren.to || !HasSymbol(ls, ren.to)
  {
    if ls != [] {
      ReturnRestores(ls[1..], ren);
      ReturnedStep(ls, ren);
      ReturnLength(ls, ren);
      var back := RenameOne(RenameOne(ls[0], ren), Back(ren)).text;
      assert HasSymbol(ls, ren.to) <==> (ls[0].kind == Symbol && ls[0].text == ren.to) || HasSymbol(ls[1..], ren.to);
      if Flatten(Returned(ls, ren)) == Flatten(ls) && |ren.from| == |ren.to| {
        SplitEqual(back, ls[0].text, Flatten(Returned(ls[1..], ren)), Flatten(ls[1..]));
      }
    }
  }

  /** Renaming back restores the source exactly when the new name was not already a symbol in it. */
  lemma {:induction false} RoundTrip(source: Text, ren: Renaming)
    requires ValidTarget(ren.to) && !Hazardous(source, ren)
    ensures Renamed(Renamed(source, ren), Back(ren)) == source
       <==> ren.from == ren.to || !HasSymbol(Lex(source), ren.to)
  {
    SafeRenameLexes(source, ren);
    ReturnRestores(Lex(source), ren);
    FlattenLex(source);
  }

  /** Two leading units decide for a reader token. */
  lemma {:induction false} ReaderPrefix(t: Text, u: Text)
    requires t != [] && Head(t).kind in {Discard, Reader} && u != [] && Head(u).kind in {Symbol, Delimiter}
    ensures |Head(t).text| == 2 && !(Head(t).text <= u)
  {}

  lemma {:induction false} HazardIsNotUndone(ls: seq<Lexeme>, ren: Renaming)
    requires WellCut(ls) && ValidTarget(ren.to) && Hazard(ls, ren) && !HasSymbol(ls, ren.to)
    ensures Renamed(Flatten(Rename(ls, ren)), Back(ren)) != Flatten(ls)
  {
    var rs := Rename(ls, ren);
    var t := Flatten(rs);
    HeadAfterRename(ls, ren);
    var x := Head(t);
    LexStep(t, x);
    var rest := Lex(t[|x.text|..]);
    assert Rename(Lex(t), Back(ren))[1..] == Rename(rest, Back(ren));
    assert Renamed(t, Back(ren)) == RenameOne(x, Back(ren)).text + Flatten(Rename(rest, Back(ren)));
    if HeadHazard(ls, ren) {
      ReaderPrefix(t, Flatten(ls));
      assert x.text <= Renamed(t, Back(ren));
    } else {
      HazardIsNotUndone(ls[1..], ren);
      assert rs[1..] == Rename(ls[1..], ren);
      assert t[|x.text|..] == Flatten(rs[1..]);
      assert ls[0] in ls;
      if Renamed(t, Back(ren)) == Flatten(ls) {
        SplitEqual(ls[0].text, ls[0].text, Flatten(Rename(rest, Back(ren))), Flatten(ls[1..]));
      }
    }
  }

  /** For a name the source does not use, renaming back works exactly when nothing was hazardous. */
  lemma {:induction false} FreshNameRoundTrip(source: Text, ren: Renaming)
    requires ValidTarget(ren.to) && !HasSymbol(Lex(source), ren.to)
    ensures Renamed(Renamed(source, ren), Back(ren)) == source <==> !Hazardous(source, ren)
  {
    if Hazardous(source, ren) {
      HazardousIsHazard(source, ren);
      LexIsWellCut(source);
      FlattenLex(source);
      HazardIsNotUndone(Lex(source), ren);
    } else {
      RoundTrip(source, ren);
    }
  }
}
