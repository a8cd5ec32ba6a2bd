/**
 applyUnifiedDiff on texts: taking a text apart into lines, and what swapping the hunks does then.
 */
module UnifiedDiff {
  import opened CodeUnits
  import opened LineDiff

  /** The new start is never read; without the placement, swapping may fail. */
  lemma {:induction false} MisplacedDoesNotSwap()
    ensures var a, b, x: Text := [0x61], [0x62], [0x78];
            var hunks := [Hunk(1, 1, 7, 1, [HunkLine(Remove, a), HunkLine(Add, x)])];
            && ApplyFrom([a, b], hunks, 0) == Ok([x, b])
            && ApplyFrom([x, b], SwapAll(hunks), 0).Err?
  {
    var a, b, x: Text := [0x61], [0x62], [0x78];
    var added := [HunkLine(Add, x)];
    var ls := [HunkLine(Remove, a)] + added;
    var h := Hunk(1, 1, 7, 1, ls);
    assert added[1..] == [] && OldSide(added) == [] && NewSide(added) == [x];
    assert ls[1..] == added && OldSide(ls) == [a] && NewSide(ls) == [x];
    RunLinesReplaces([a, b], ls, 0);
    assert RunHunk([a, b], h, 0) == Ok((1, [x]));
    var none := [h][1..];
    assert none == [] && From([a, b], 1) == [b] && ApplyFrom([a, b], none, 1) == Ok([b]);
    ApplyStep([a, b], [h], 0, 1, [x], [b]);
    assert [x] + [b] == [x, b];
    SwappedSides(ls);
    RunLinesReplaces([x, b], SwapLines(ls), 6);
    assert SwapAll([h])[0] == Swap(h);
  }

  /** Lines that repeat hide a wrong place: the removal of one of two equal lines is undone at either of them. */
  lemma {:induction false} RepeatedLinesSwap()
    ensures var x: Text := [0x78];
            var hunks := [Hunk(1, 1, 2, 0, [HunkLine(Remove, x)])];
            && ApplyFrom([x, x], hunks, 0) == Ok([x]) && !Placed([x, x], hunks, 0, 0)
            && ApplyFrom([x], SwapAll(hunks), 0) == Ok([x, x])
  {
    var x: Text := [0x78];
    var h := Hunk(1, 1, 2, 0, [HunkLine(Remove, x)]);
    var none := h.lines[1..];
    assert none == [] && OldSide(h.lines) == [x] && NewSide(h.lines) == [];
    RunLinesReplaces([x, x], h.lines, 0);
    assert RunHunk([x, x], h, 0) == Ok((1, []));
    assert [h][1..] == [] && From([x, x], 1) == [x];
    ApplyStep([x, x], [h], 0, 1, [], [x]);
    assert [] + [x] == [x];
    SwappedSides(h.lines);
    assert Inserts(Swap(h), [x]);
    InsertsInFront([x], Swap(h), [x]);
    assert SwapAll([h]) == [Swap(h)];
    assert Cut([x], 0, 1) + [x] + From([x], 1) == [x, x];
    assert Place(h.newStart) == 1 && |Cut([x, x], 0, 0)| == 0;
  }

  /** `@@ -1,0` inserts in front of the first line, where the usual reading is behind it. */
  lemma {:induction false} InsertionDiffers()
    ensures var a, b, x: Text := [0x61], [0x62], [0x78];
            var hunk := Hunk(1, 0, 2, 1, [HunkLine(Add, x)]);
            && ApplyFrom([a, b], [hunk], 0) == Ok([x, a, b])
            && ApplyFrom([a, b], [hunk], 0) != Ok([a, b][..1] + [x] + [a, b][1..])
  {
    var a, b, x: Text := [0x61], [0x62], [0x78];
    var h := Hunk(1, 0, 2, 1, [HunkLine(Add, x)]);
    var none := h.lines[1..];
    assert none == [] && OldSide(none) == [] && NewSide(none) == [];
    assert OldSide(h.lines) == [] && NewSide(h.lines) == [x];
    InsertsInFront([a, b], h, [x]);
    InsertionAgrees([a, b], h, [x]);
    assert Cut([a, b], 0, 0) + [x] + From([a, b], 0) == [x, a, b];
    assert x[0] != a[0] && ([a, b][..1] + [x] + [a, b][1..])[0] == a && [x, a, b][0] == x;
  }

  // ---------------------------------------------------------------- texts

  predicate HasCrLf(t: Text) {
    |t| >= 2 && ((t[0] == 0x0D && t[1] == NEWLINE) || HasCrLf(t[1..]))
  }

  /** Every CR LF becomes LF. */
  function Normalize(t: Text): Text
    decreases |t|
  {
    if t == [] then []
    else if |t| >= 2 && t[0] == 0x0D && t[1] == NEWLINE then [NEWLINE] + Normalize(t[2..])
    else [t[0]] + Normalize(t[1..])
  }

  lemma {:induction false} NormalizeNothing(t: Text)
    requires !HasCrLf(t)
    ensures Normalize(t) == t
  {
    if t != [] { NormalizeNothing(t[1..]); }
  }

  function SplitLines(t: Text): (ls: seq<Text>)
    ensures ls != []
  {
    if t == [] then [[]]
    else
      var rest := SplitLines(t[1..]);
      if t[0] == NEWLINE then [[]] + rest else [[t[0]] + rest[0]] + rest[1..]
  }

  function JoinLines(ls: seq<Text>): Text {
    if ls == [] then [] else if |ls| == 1 then ls[0] else ls[0] + [NEWLINE] + JoinLines(ls[1..])
  }

  ghost predicate IsLine(t: Text) {
    NEWLINE !in t
  }

  ghost predicate SingleLines(ls: seq<Text>) {
    forall i | 0 <= i < |ls| :: IsLine(ls[i])
  }

  lemma {:induction false} JoinSplit(t: Text)
    ensures JoinLines(SplitLines(t)) == t && SingleLines(SplitLines(t))
  {
    if t != [] {
      var rest := SplitLines(t[1..]);
      JoinSplit(t[1..]);
      if t[0] == NEWLINE {
        assert ([[]] + rest)[1..] == rest;
        assert [] + [NEWLINE] + t[1..] == t;
      } else {
        var ls := [[t[0]] + rest[0]] + rest[1..];
        assert ls[1..] == rest[1..];
        assert JoinLines(ls) == [t[0]] + JoinLines(rest);
        assert [t[0]] + t[1..] == t;
      }
    }
  }

  lemma {:induction false} SplitFirst(a: Text, t: Text)
    requires NEWLINE !in a
    ensures SplitLines(a + [NEWLINE] + t) == [a] + SplitLines(t)
  {
    var u := a + [NEWLINE] + t;
    if a == [] {
      assert u[1..] == t;
    } else {
      SplitFirst(a[1..], t);
      assert u[1..] == a[1..] + [NEWLINE] + t;
      var rest := [a[1..]] + SplitLines(t);
      assert rest[1..] == SplitLines(t) && [a[0]] + a[1..] == a;
    }
  }

  lemma {:induction false} SplitOne(a: Text)
    requires NEWLINE !in a
    ensures SplitLines(a) == [a]
  {
    if a != [] { SplitOne(a[1..]); assert [a[0]] + a[1..] == a; }
  }

  lemma {:induction false} SplitJoin(ls: seq<Text>)
    requires ls != [] && SingleLines(ls)
    ensures SplitLines(JoinLines(ls)) == ls
  {
    if |ls| == 1 {
      SplitOne(ls[0]);
    } else {
      SplitJoin(ls[1..]);
      SplitFirst(ls[0], JoinLines(ls[1..]));
    }
  }

  lemma {:induction false} JoinWithEmpty(ls: seq<Text>)
    requires ls != []
    ensures JoinLines(ls + [[]]) == JoinLines(ls) + [NEWLINE]
  {
    assert (ls + [[]])[1..] == ls[1..] + [[]];
    if |ls| > 1 { JoinWithEmpty(ls[1..]); } else { assert ls[1..] + [[]] == [[]]; }
  }

  predicate EndsWithNewline(t: Text) {
    t != [] && t[|t| - 1] == NEWLINE
  }

  /** A joined text ends in a newline exactly when its last of several lines is empty. */
  lemma {:induction false} JoinEnd(ls: seq<Text>)
    requires ls != [] && SingleLines(ls)
    ensures EndsWithNewline(JoinLines(ls)) <==> |ls| > 1 && ls[|ls| - 1] == []
  {
    if |ls| == 1 {
      if ls[0] != [] { assert ls[0][|ls[0]| - 1] in ls[0]; }
    } else {
      JoinEnd(ls[1..]);
      var t, rest := JoinLines(ls), JoinLines(ls[1..]);
      if rest == [] { assert t[|t| - 1] == NEWLINE; } else { assert t[|t| - 1] == rest[|rest| - 1]; }
      assert |ls| == 2 ==> rest == ls[1];
      if |ls| > 2 { JoinNotEmpty(ls[1..]); }
    }
  }

  lemma {:induction false} JoinNotEmpty(ls: seq<Text>)
    requires |ls| > 1
    ensures JoinLines(ls) != []
  {}

  /** The lines of a text, as applyUnifiedDiff takes it apart. */
  function ToLines(t: Text): seq<Text> {
    var ls := SplitLines(Normalize(t));
    if EndsWithNewline(t) then ls[..|ls| - 1] else ls
  }

  function ToText(ls: seq<Text>, final: bool): Text {
    if final then JoinLines(ls) + [NEWLINE] else JoinLines(ls)
  }

  function ApplyToText(t: Text, hunks: seq<Hunk<Text>>): Result<Text> {
    match ApplyFrom(ToLines(t), hunks, 0)
    case Err(e) => Err(e)
    case Ok(ls) => Ok(ToText(ls, EndsWithNewline(t)))
  }

  lemma {:induction false} NormalizeShortens(t: Text)
    ensures |Normalize(t)| <= |t| && (|Normalize(t)| == |t| <==> !HasCrLf(t))
    ensures HasCrLf(t) ==> !(Normalize(t) <= t)
    decreases |t|
  {
    if |t| >= 2 && t[0] == 0x0D && t[1] == NEWLINE {
      NormalizeShortens(t[2..]);
    } else if t != [] {
      NormalizeShortens(t[1..]);
      if Normalize(t) <= t { assert Normalize(t[1..]) == Normalize(t)[1..] <= t[1..]; }
    }
  }

  lemma {:induction false} NormalizeEnd(t: Text)
    ensures EndsWithNewline(Normalize(t)) <==> EndsWithNewline(t)
    ensures Normalize(t) == [] <==> t == []
    decreases |t|
  {
    if |t| >= 2 && t[0] == 0x0D && t[1] == NEWLINE {
      NormalizeEnd(t[2..]);
      assert t[2..] != [] ==> t[|t| - 1] == t[2..][|t| - 3];
    } else if t != [] {
      NormalizeEnd(t[1..]);
      assert t[1..] != [] ==> t[|t| - 1] == t[1..][|t| - 2];
    }
  }

  /** The lines of a text, put together again, are the text with its line ends normalised; there is at least one. */
  lemma {:induction false} TakenApart(t: Text)
    ensures ToLines(t) != [] && SingleLines(ToLines(t)) && ToText(ToLines(t), EndsWithNewline(t)) == Normalize(t)
  {
    NormalizeEnd(t);
    JoinSplit(Normalize(t));
    var ls := SplitLines(Normalize(t));
    JoinEnd(ls);
    if EndsWithNewline(t) {
      var front := ls[..|ls| - 1];
      assert ls == front + [[]];
      JoinWithEmpty(front);
    }
  }

  /** The lines can be told from the text: some line, and no empty last line that looks like a final newline. */
  predicate Recoverable(ls: seq<Text>, final: bool) {
    ls != [] && (final || |ls| == 1 || ls[|ls| - 1] != [])
  }

  /** A line as it is read back when a newline follows it. */
  function Strip(a: Text): Text {
    if a != [] && a[|a| - 1] == 0x0D then a[..|a| - 1] else a
  }

  /** The lines as they are read back: a carriage return in front of a newline is gone. */
  function Stripped(ls: seq<Text>, final: bool): seq<Text>
    requires ls != []
  {
    if |ls| == 1 then [if final then Strip(ls[0]) else ls[0]] else [Strip(ls[0])] + Stripped(ls[1..], final)
  }

  lemma {:induction false} NormalizeFirst(c: CodeUnit, rest: Text)
    requires rest != [] && !(c == 0x0D && rest[0] == NEWLINE)
    ensures Normalize([c] + rest) == [c] + Normalize(rest)
  {
    assert ([c] + rest)[1..] == rest && ([c] + rest)[1] == rest[0];
  }

  lemma {:induction false} NormalizeLine(a: Text, t: Text)
    requires IsLine(a)
    ensures Normalize(a + [NEWLINE] + t) == Strip(a) + [NEWLINE] + Normalize(t)
  {
    var u := a + [NEWLINE] + t;
    if a == [] {
      assert u[1..] == t && [] + [NEWLINE] + Normalize(t) == [NEWLINE] + Normalize(t);
    } else if a == [0x0D] {
      assert u[0] == 0x0D && u[1] == NEWLINE && u[2..] == t;
      assert [] + [NEWLINE] + Normalize(t) == [NEWLINE] + Normalize(t);
    } else {
      var b, rest := a[1..], a[1..] + [NEWLINE] + t;
      NormalizeLine(b, t);
      assert u == [a[0]] + rest && rest[0] == if b == [] then NEWLINE else a[1];
      NormalizeFirst(a[0], rest);
      StripFirst(a);
      assert [a[0]] + (Strip(b) + [NEWLINE] + Normalize(t)) == [a[0]] + Strip(b) + [NEWLINE] + Normalize(t);
    }
  }

  lemma {:induction false} StripFirst(a: Text)
    requires a != [] && a != [0x0D]
    ensures Strip(a) == [a[0]] + Strip(a[1..])
  {}

  lemma {:induction false} NormalizeLast(a: Text)
    requires IsLine(a)
    ensures Normalize(a) == a
  {
    if a != [] {
      NormalizeLast(a[1..]);
      assert |a| >= 2 ==> a[1] in a;
    }
  }

  lemma {:induction false} NormalizeText(ls: seq<Text>, final: bool)
    requires ls != [] && SingleLines(ls)
    ensures Normalize(ToText(ls, final)) == ToText(Stripped(ls, final), final)
    ensures SingleLines(Stripped(ls, final)) && |Stripped(ls, final)| == |ls|
  {
    if |ls| == 1 {
      if final {
        NormalizeLine(ls[0], []);
        assert ls[0] + [NEWLINE] + [] == ls[0] + [NEWLINE];
        assert Strip(ls[0]) + [NEWLINE] + Normalize([]) == Strip(ls[0]) + [NEWLINE];
      } else {
        NormalizeLast(ls[0]);
      }
    } else {
      NormalizeText(ls[1..], final);
      NormalizeLine(ls[0], ToText(ls[1..], final));
      ToTextFirst(ls, final);
      ToTextFirst([Strip(ls[0])] + Stripped(ls[1..], final), final);
    }
  }

  lemma {:induction false} ToTextFirst(ls: seq<Text>, final: bool)
    requires |ls| > 1
    ensures ToText(ls, final) == ls[0] + [NEWLINE] + ToText(ls[1..], final)
  {
    if final { assert ls[0] + [NEWLINE] + JoinLines(ls[1..]) + [NEWLINE] == ls[0] + [NEWLINE] + (JoinLines(ls[1..]) + [NEWLINE]); }
  }

  /** What is read back from recoverable lines. */
  lemma {:induction false} ReadBack(ls: seq<Text>, final: bool)
    requires Recoverable(ls, final) && SingleLines(ls)
    ensures ToLines(ToText(ls, final)) == Stripped(ls, final) && EndsWithNewline(ToText(ls, final)) == final
  {
    var stripped := Stripped(ls, final);
    JoinEnd(ls);
    NormalizeText(ls, final);
    SplitJoin(stripped);
    if final {
      JoinWithEmpty(stripped);
      assert SingleLines(stripped + [[]]);
      SplitJoin(stripped + [[]]);
      assert (stripped + [[]])[..|ls|] == stripped;
    }
  }

  lemma {:induction false} StrippedUnchanged(ls: seq<Text>, final: bool)
    requires ls != [] && SingleLines(ls)
    ensures Stripped(ls, final) == ls <==> !HasCrLf(ToText(ls, final))
  {
    NormalizeText(ls, final);
    NormalizeShortens(ToText(ls, final));
    StrippedShorter(ls, final);
    if Stripped(ls, final) != ls { ShorterText(Stripped(ls, final), ls, final); }
  }

  /** The lines of `a` are those of `b`, some of them without their last unit. */
  ghost predicate Shorter(a: seq<Text>, b: seq<Text>) {
    |a| == |b| && forall i | 0 <= i < |a| :: a[i] == b[i] || |a[i]| < |b[i]|
  }

  lemma {:induction false} StrippedShorter(ls: seq<Text>, final: bool)
    requires ls != []
    ensures Shorter(Stripped(ls, final), ls)
  {
    if |ls| > 1 { StrippedShorter(ls[1..], final); }
  }

  lemma {:induction false} ShorterConcat(a: seq<Text>, b: seq<Text>, c: seq<Text>, d: seq<Text>)
    requires Shorter(a, b) && Shorter(c, d)
    ensures Shorter(a + c, b + d) && (a + c == b + d ==> a == b && c == d)
  {
    if a + c == b + d { assert a == (a + c)[..|a|] && c == (a + c)[|a|..] && b == (b + d)[..|b|] && d == (b + d)[|b|..]; }
  }

  lemma {:induction false} ShorterText(a: seq<Text>, b: seq<Text>, final: bool)
    requires Shorter(a, b) && a != [] && a != b
    ensures |ToText(a, final)| < |ToText(b, final)|
  {
    ShorterJoin(a, b);
  }

  lemma {:induction false} ShorterJoin(a: seq<Text>, b: seq<Text>)
    requires Shorter(a, b) && a != []
    ensures |JoinLines(a)| <= |JoinLines(b)| && (a != b ==> |JoinLines(a)| < |JoinLines(b)|)
  {
    if |a| > 1 {
      ShorterJoin(a[1..], b[1..]);
      if a != b && a[0] == b[0] { assert a == [a[0]] + a[1..] && b == [b[0]] + b[1..]; }
    } else if a != b {
      assert a[0] != b[0];
    }
  }

  lemma {:induction false} ShorterAround(a: seq<Text>, b: seq<Text>, side: seq<Text>, c: seq<Text>, d: seq<Text>)
    requires Shorter(a, b) && Shorter(c, d)
    ensures Shorter(a + side + c, b + side + d) && (a + side + c == b + side + d ==> a == b && c == d)
  {
    ShorterConcat(a, b, side, side);
    ShorterConcat(a + side, b + side, c, d);
  }

  lemma {:induction false} CutsShorter(a: seq<Text>, b: seq<Text>, from: nat, to: nat)
    requires Shorter(a, b)
    ensures Shorter(Cut(a, from, to), Cut(b, from, to))
  {}

  /** What hunks make of lines and of the same lines with some shortened. */
  ghost predicate ShorterOutcome(a: seq<Text>, b: seq<Text>, from: nat, x: seq<Text>, y: seq<Text>) {
    Shorter(x, y) && (x == y ==> From(a, from) == From(b, from))
  }

  lemma {:induction false} ShorterStep(a: seq<Text>, b: seq<Text>, from: nat, end: nat, keptA: seq<Text>, keptB: seq<Text>,
                                       oldSide: seq<Text>, newSide: seq<Text>, restA: seq<Text>, restB: seq<Text>)
    requires Shorter(keptA, keptB) && ShorterOutcome(a, b, end, restA, restB)
    requires From(a, from) == keptA + oldSide + From(a, end) && From(b, from) == keptB + oldSide + From(b, end)
    ensures ShorterOutcome(a, b, from, keptA + newSide + restA, keptB + newSide + restB)
  {
    ShorterAround(keptA, keptB, newSide, restA, restB);
  }

  lemma {:induction false} ShorterApplied(a: seq<Text>, b: seq<Text>, hunks: seq<Hunk<Text>>, from: nat)
    returns (x: seq<Text>, y: seq<Text>)
    requires Shorter(a, b) && ApplyFrom(a, hunks, from).Ok? && ApplyFrom(b, hunks, from).Ok?
    ensures ApplyFrom(a, hunks, from) == Ok(x) && ApplyFrom(b, hunks, from) == Ok(y) && ShorterOutcome(a, b, from, x, y)
    decreases |hunks|
  {
    if hunks == [] {
      CutsShorter(a, b, from, |a|);
      x, y := From(a, from), From(b, from);
    } else {
      var keptA, oldSide, newSide, restA, end := HunkParts(a, hunks, from);
      var keptB, oldSideB, newSideB, restB, endB := HunkParts(b, hunks, from);
      CutsShorter(a, b, from, Place(hunks[0].oldStart));
      assert endB == end && oldSideB == oldSide && newSideB == newSide;
      x, y := ShorterApplied(a, b, hunks[1..], end);
      assert x == restA && y == restB;
      ShorterStep(a, b, from, end, keptA, keptB, oldSide, newSide, x, y);
      x, y := keptA + newSide + x, keptB + newSide + y;
    }
  }

  ghost predicate SingleLineHunks(hunks: seq<Hunk<Text>>) {
    forall i | 0 <= i < |hunks| :: SingleLines(NewSide(hunks[i].lines))
  }

  lemma {:induction false} SingleConcat(all: seq<Text>, a: seq<Text>, b: seq<Text>, c: seq<Text>)
    requires all == a + b + c && SingleLines(a) && SingleLines(b) && SingleLines(c)
    ensures SingleLines(all)
  {}

  lemma {:induction false} CutSingle(lines: seq<Text>, from: nat, to: nat)
    requires SingleLines(lines)
    ensures SingleLines(Cut(lines, from, to))
  {}

  lemma {:induction false} FewerHunks(hunks: seq<Hunk<Text>>)
    requires hunks != [] && SingleLineHunks(hunks)
    ensures SingleLineHunks(hunks[1..]) && SingleLines(NewSide(hunks[0].lines))
  {
    assert forall i | 0 <= i < |hunks[1..]| :: hunks[1..][i] == hunks[i + 1];
  }

  lemma {:induction false} ResultSingle(lines: seq<Text>, hunks: seq<Hunk<Text>>, from: nat)
    requires ApplyFrom(lines, hunks, from).Ok? && SingleLines(lines) && SingleLineHunks(hunks)
    ensures SingleLines(ApplyFrom(lines, hunks, from).value)
    decreases |hunks|
  {
    if hunks == [] {
      CutSingle(lines, from, |lines|);
    } else {
      var kept, oldSide, newSide, rest, end := HunkParts(lines, hunks, from);
      FewerHunks(hunks);
      ResultSingle(lines, hunks[1..], end);
      CutSingle(lines, from, Place(hunks[0].oldStart));
      SingleConcat(kept + newSide + rest, kept, newSide, rest);
    }
  }

  /** An empty result becomes an empty line when it is read again, and that line is never taken back. */
  lemma {:induction false} EmptyResultGrows(t: Text, hunks: seq<Hunk<Text>>)
    requires Placed(ToLines(t), hunks, 0, 0) && ApplyFrom(ToLines(t), hunks, 0) == Ok([])
    ensures ApplyToText(t, hunks).Ok?
    ensures ApplyToText(ApplyToText(t, hunks).value, SwapAll(hunks)) == Ok(Normalize(t) + [NEWLINE])
  {
    var lines, final := ToLines(t), EndsWithNewline(t);
    var res := ToText([], final);
    TakenApart(t);
    assert ToLines(res) == [[]] && EndsWithNewline(res) == final by {
      assert !HasCrLf(res);
      NormalizeNothing(res);
      if final {
        assert res == [] + [NEWLINE] + [];
        SplitFirst([], []);
        assert SplitLines(res) == [[], []];
      }
    }
    var extra: seq<Text> := [[]];
    SwapRestoresBefore(lines, hunks, extra);
    assert ApplyFrom(lines, hunks, 0).value + extra == extra;
    JoinWithEmpty(lines);
  }

  /** A result that can be told from its lines: what swapping the hunks makes of it. */
  lemma {:induction false} RecoverableRestores(t: Text, hunks: seq<Hunk<Text>>, lines: seq<Text>, ls: seq<Text>, final: bool, res: Text)
    requires lines == ToLines(t) && final == EndsWithNewline(t) && Placed(lines, hunks, 0, 0)
    requires ApplyFrom(lines, hunks, 0) == Ok(ls) && SingleLines(ls) && Recoverable(ls, final) && res == ToText(ls, final)
    ensures ApplyToText(res, SwapAll(hunks)) == Ok(t) <==> !HasCrLf(t) && !HasCrLf(res)
  {
    var read := Stripped(ls, final);
    ReadBack(ls, final);
    StrippedShorter(ls, final);
    StrippedUnchanged(ls, final);
    SwapRestores(lines, hunks);
    TakenApart(t);
    NormalizeShortens(t);
    if !HasCrLf(t) { NormalizeNothing(t); }
    var back := ApplyFrom(read, SwapAll(hunks), 0);
    if back.Ok? {
      var x, y := ShorterApplied(read, ls, SwapAll(hunks), 0);
      assert x == back.value && y == lines && From(read, 0) == read && From(ls, 0) == ls;
      if back.value != lines { ShorterText(back.value, lines, final); }
    }
  }

  /** A result that cannot be told from its lines never leads back. */
  lemma {:induction false} UnrecoverableStays(t: Text, hunks: seq<Hunk<Text>>, ls: seq<Text>, final: bool, res: Text)
    requires final == EndsWithNewline(t) && Placed(ToLines(t), hunks, 0, 0)
    requires ApplyFrom(ToLines(t), hunks, 0) == Ok(ls) && SingleLines(ls) && !Recoverable(ls, final) && res == ToText(ls, final)
    ensures ApplyToText(res, SwapAll(hunks)) != Ok(t)
  {
    if ls == [] {
      EmptyResultGrows(t, hunks);
      NormalizeShortens(t);
      assert Normalize(t) <= Normalize(t) + [NEWLINE];
    } else {
      JoinEnd(ls);
      assert EndsWithNewline(res) && !EndsWithNewline(t);
      var back := ApplyToText(res, SwapAll(hunks));
      if back.Ok? { assert EndsWithNewline(back.value); }
    }
  }

  /**
   Applying a well-placed diff and then its swapped hunks restores the text exactly when
   neither the text nor the result has a CR LF and the result can be told from its lines.
   */
  lemma {:induction false} SwapRestoresText(t: Text, hunks: seq<Hunk<Text>>)
    requires SingleLineHunks(hunks) && ApplyFrom(ToLines(t), hunks, 0).Ok? && Placed(ToLines(t), hunks, 0, 0)
    ensures ApplyToText(t, hunks).Ok?
    ensures ApplyToText(ApplyToText(t, hunks).value, SwapAll(hunks)) == Ok(t)
       <==> !HasCrLf(t) && !HasCrLf(ApplyToText(t, hunks).value)
            && Recoverable(ApplyFrom(ToLines(t), hunks, 0).value, EndsWithNewline(t))
  {
    var lines, final := ToLines(t), EndsWithNewline(t);
    var ls, res := ApplyFrom(lines, hunks, 0).value, ApplyToText(t, hunks).value;
    TakenApart(t);
    ResultSingle(lines, hunks, 0);
    if Recoverable(ls, final) {
      RecoverableRestores(t, hunks, lines, ls, final, res);
    } else {
      UnrecoverableStays(t, hunks, ls, final, res);
    }
  }
}
