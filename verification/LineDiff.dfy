/**
 Applying unified diffs to a list of lines, exactly when the hunks with their sides swapped undo
 the change, and where a hunk that removes nothing puts its lines.
 */
module LineDiff {
  datatype LineKind = Context | Add | Remove

  datatype HunkLine<T> = HunkLine(kind: LineKind, text: T)

  datatype Hunk<T> = Hunk(oldStart: nat, oldCount: nat, newStart: nat, newCount: nat, lines: seq<HunkLine<T>>)

  datatype DiffError = Overlap | ContextMismatch | RemovalMismatch | CountMismatch | InvalidLine | NoHunks

  datatype Result<+T> = Ok(value: T) | Err(error: DiffError)

  /** Zero-based place of a one-based line number; 0 and 1 both mean the beginning. */
  function Place(start: nat): nat {
    if start == 0 then 0 else start - 1
  }

  /** Array.prototype.slice with both bounds cut off at the end. */
  function Cut<T>(lines: seq<T>, start: nat, end: nat): (r: seq<T>)
    ensures start <= end <= |lines| ==> r == lines[start..end]
    ensures start >= |lines| || start >= end ==> r == []
  {
    var hi := if end <= |lines| then end else |lines|;
    if start <= hi then lines[start..hi] else []
  }

  function From<T>(lines: seq<T>, start: nat): seq<T> {
    Cut(lines, start, |lines|)
  }

  predicate Reads<T(==)>(lines: seq<T>, at: nat, text: T) {
    at < |lines| && lines[at] == text
  }

  /** The lines of one hunk read against `lines` from `at` on: where reading stops, and what comes out. */
  function RunLines<T(==)>(lines: seq<T>, ls: seq<HunkLine<T>>, at: nat): Result<(nat, seq<T>)>
    decreases |ls|
  {
    if ls == [] then Ok((at, []))
    else
      var l := ls[0];
      if l.kind == Context && !Reads(lines, at, l.text) then Err(ContextMismatch)
      else if l.kind == Remove && !Reads(lines, at, l.text) then Err(RemovalMismatch)
      else
        match RunLines(lines, ls[1..], if l.kind == Add then at else at + 1)
        case Err(e) => Err(e)
        case Ok((end, out)) => Ok((end, (if l.kind == Remove then [] else [l.text]) + out))
  }

  function RunHunk<T(==)>(lines: seq<T>, h: Hunk<T>, from: nat): Result<(nat, seq<T>)> {
    var target := Place(h.oldStart);
    if target < from then Err(Overlap)
    else match RunLines(lines, h.lines, target)
      case Err(e) => Err(e)
      case Ok((end, out)) =>
        if end - target != h.oldCount || |out| != h.newCount then Err(CountMismatch)
        else Ok((end, Cut(lines, from, target) + out))
  }

  /** What becomes of the lines from `from` on. */
  function ApplyFrom<T(==)>(lines: seq<T>, hunks: seq<Hunk<T>>, from: nat): Result<seq<T>>
    decreases |hunks|
  {
    if hunks == [] then Ok(From(lines, from))
    else
      match RunHunk(lines, hunks[0], from)
      case Err(e) => Err(e)
      case Ok((end, out)) =>
        match ApplyFrom(lines, hunks[1..], end)
        case Err(e) => Err(e)
        case Ok(rest) => Ok(out + rest)
  }

  lemma {:induction false} RunLinesEnds<T>(lines: seq<T>, ls: seq<HunkLine<T>>, at: nat)
    requires RunLines(lines, ls, at).Ok?
    ensures RunLines(lines, ls, at).value.0 >= at
    ensures RunLines(lines, ls, at).value.0 > at ==> RunLines(lines, ls, at).value.0 <= |lines|
    decreases |ls|
  {
    if ls != [] { RunLinesEnds(lines, ls[1..], if ls[0].kind == Add then at else at + 1); }
  }

  // ---------------------------------------------------------------- the loops

  function RunBehind<T>(output: seq<T>, r: Result<(nat, seq<T>)>): Result<(nat, seq<T>)> {
    match r
    case Err(e) => Err(e)
    case Ok((end, out)) => Ok((end, output + out))
  }

  lemma {:induction false} RunBehindNothing<T>(r: Result<(nat, seq<T>)>)
    ensures RunBehind([], r) == r
  {
    if r.Ok? { assert [] + r.value.1 == r.value.1; }
  }

  /** One line read: what it adds to the output, and where reading goes on. */
  lemma {:induction false} RunUnfolds<T>(lines: seq<T>, ls: seq<HunkLine<T>>, at: nat, output: seq<T>)
    requires ls != [] && (ls[0].kind == Add || Reads(lines, at, ls[0].text))
    ensures RunBehind(output, RunLines(lines, ls, at))
         == RunBehind(output + (if ls[0].kind == Remove then [] else [ls[0].text]),
                      RunLines(lines, ls[1..], if ls[0].kind == Add then at else at + 1))
  {
    var piece := if ls[0].kind == Remove then [] else [ls[0].text];
    var rest := RunLines(lines, ls[1..], if ls[0].kind == Add then at else at + 1);
    if rest.Ok? { assert output + (piece + rest.value.1) == (output + piece) + rest.value.1; }
  }

  /** The inner loop of applyUnifiedDiff: one hunk, line by line. */
  method ApplyHunkLines<T(==)>(lines: seq<T>, ls: seq<HunkLine<T>>, start: nat)
    returns (r: Result<nat>, output: seq<T>, oldSeen: nat, newSeen: nat)
    ensures RunLines(lines, ls, start) == if r.Ok? then Ok((r.value, output)) else Err(r.error)
    ensures r.Ok? ==> oldSeen == r.value - start && newSeen == |output|
  {
    var sourceIndex := start;
    output, oldSeen, newSeen := [], 0, 0;
    ghost var whole, left := RunLines(lines, ls, start), ls;
    RunBehindNothing(whole);
    for i := 0 to |ls|
      invariant left == ls[i..]
      invariant oldSeen == sourceIndex - start && newSeen == |output|
      invariant whole == RunBehind(output, RunLines(lines, left, sourceIndex))
    {
      var line := ls[i];
      assert left[0] == line && left[1..] == ls[i + 1..];
      if line.kind == Context {
        if sourceIndex >= |lines| || lines[sourceIndex] != line.text { return Err(ContextMismatch), output, oldSeen, newSeen; }
      } else if line.kind == Remove {
        if sourceIndex >= |lines| || lines[sourceIndex] != line.text { return Err(RemovalMismatch), output, oldSeen, newSeen; }
      }
      RunUnfolds(lines, left, sourceIndex, output);
      left := left[1..];
      if line.kind == Context {
        output := output + [line.text];
        sourceIndex, oldSeen, newSeen := sourceIndex + 1, oldSeen + 1, newSeen + 1;
      } else if line.kind == Remove {
        output := output + [];
        sourceIndex, oldSeen := sourceIndex + 1, oldSeen + 1;
      } else {
        output := output + [line.text];
        newSeen := newSeen + 1;
      }
    }
    assert output + [] == output;
    r := Ok(sourceIndex);
  }

  /** One turn of the outer loop: copy up to the hunk, run it, check its counts. */
  method ApplyHunk<T(==)>(lines: seq<T>, hunk: Hunk<T>, sourceIndex: nat) returns (r: Result<(nat, seq<T>)>)
    ensures r == RunHunk(lines, hunk, sourceIndex)
  {
    var targetIndex := Place(hunk.oldStart);
    if targetIndex < sourceIndex { return Err(Overlap); }
    var ran, produced, oldSeen, newSeen := ApplyHunkLines(lines, hunk.lines, targetIndex);
    if ran.Err? { return Err(ran.error); }
    if oldSeen != hunk.oldCount || newSeen != hunk.newCount { return Err(CountMismatch); }
    return Ok((ran.value, Cut(lines, sourceIndex, targetIndex) + produced));
  }

  /** The outer loop of applyUnifiedDiff, on line lists. */
  method ApplyToLines<T(==)>(lines: seq<T>, hunks: seq<Hunk<T>>) returns (r: Result<seq<T>>)
    ensures r == ApplyFrom(lines, hunks, 0)
  {
    var output: seq<T> := [];
    var sourceIndex := 0;
    ghost var whole := ApplyFrom(lines, hunks, 0);
    ghost var left := hunks;
    assert whole.Ok? ==> [] + whole.value == whole.value;
    for i := 0 to |hunks|
      invariant left == hunks[i..]
      invariant whole == Behind(output, ApplyFrom(lines, left, sourceIndex))
    {
      ghost var rest := left[1..];
      assert left[0] == hunks[i] && rest == hunks[i + 1..];
      var ran := ApplyHunk(lines, hunks[i], sourceIndex);
      if ran.Err? { return Err(ran.error); }
      ApplyUnfolds(lines, left, sourceIndex, ran.value.0, ran.value.1);
      BehindStep(output, ran.value.1, ApplyFrom(lines, rest, ran.value.0));
      sourceIndex, output, left := ran.value.0, output + ran.value.1, rest;
    }
    r := Ok(output + From(lines, sourceIndex));
  }

  lemma {:induction false} ApplyUnfolds<T>(lines: seq<T>, hunks: seq<Hunk<T>>, from: nat, end: nat, out: seq<T>)
    requires hunks != [] && RunHunk(lines, hunks[0], from) == Ok((end, out))
    ensures ApplyFrom(lines, hunks, from) == Behind(out, ApplyFrom(lines, hunks[1..], end))
  {}

  function Behind<T>(output: seq<T>, r: Result<seq<T>>): Result<seq<T>> {
    match r
    case Err(e) => Err(e)
    case Ok(rest) => Ok(output + rest)
  }

  lemma {:induction false} BehindStep<T>(a: seq<T>, b: seq<T>, r: Result<seq<T>>)
    ensures Behind(a, Behind(b, r)) == Behind(a + b, r)
  {
    if r.Ok? { assert a + (b + r.value) == (a + b) + r.value; }
  }

  // ---------------------------------------------------------------- what a diff does

  /** The lines a hunk expects, and the lines it leaves. */
  function OldSide<T>(ls: seq<HunkLine<T>>): seq<T> {
    if ls == [] then [] else (if ls[0].kind == Add then [] else [ls[0].text]) + OldSide(ls[1..])
  }

  function NewSide<T>(ls: seq<HunkLine<T>>): seq<T> {
    if ls == [] then [] else (if ls[0].kind == Remove then [] else [ls[0].text]) + NewSide(ls[1..])
  }

  /** `side` is what `lines` holds from `at` on; an empty side stands anywhere. */
  predicate Stands<T(==)>(lines: seq<T>, side: seq<T>, at: nat) {
    side == [] || (at + |side| <= |lines| && lines[at..at + |side|] == side)
  }

  lemma {:induction false} StandsStep<T>(lines: seq<T>, text: T, rest: seq<T>, at: nat)
    ensures Stands(lines, [text] + rest, at) <==> Reads(lines, at, text) && Stands(lines, rest, at + 1)
  {
    var side := [text] + rest;
    if at + |side| <= |lines| {
      assert lines[at..at + |side|] == [lines[at]] + lines[at + 1..at + 1 + |rest|];
      assert side[1..] == rest && lines[at..at + |side|][1..] == lines[at + 1..at + 1 + |rest|];
    }
  }

  lemma {:induction false} RunLinesStands<T>(lines: seq<T>, ls: seq<HunkLine<T>>, at: nat)
    ensures RunLines(lines, ls, at).Ok? <==> Stands(lines, OldSide(ls), at)
    decreases |ls|
  {
    if ls != [] {
      if ls[0].kind == Add {
        RunLinesStands(lines, ls[1..], at);
        assert OldSide(ls) == OldSide(ls[1..]);
      } else {
        RunLinesStands(lines, ls[1..], at + 1);
        StandsStep(lines, ls[0].text, OldSide(ls[1..]), at);
      }
    }
  }

  lemma {:induction false} RunLinesValue<T>(lines: seq<T>, ls: seq<HunkLine<T>>, at: nat)
    requires RunLines(lines, ls, at).Ok?
    ensures RunLines(lines, ls, at).value == (at + |OldSide(ls)|, NewSide(ls))
    decreases |ls|
  {
    if ls != [] { RunLinesValue(lines, ls[1..], if ls[0].kind == Add then at else at + 1); }
  }

  /** A hunk runs exactly where its old side stands, and leaves its new side. */
  lemma {:induction false} RunLinesReplaces<T>(lines: seq<T>, ls: seq<HunkLine<T>>, at: nat)
    ensures RunLines(lines, ls, at)
         == if Stands(lines, OldSide(ls), at) then Ok((at + |OldSide(ls)|, NewSide(ls))) else RunLines(lines, ls, at)
    ensures RunLines(lines, ls, at).Ok? <==> Stands(lines, OldSide(ls), at)
  {
    RunLinesStands(lines, ls, at);
    if RunLines(lines, ls, at).Ok? { RunLinesValue(lines, ls, at); }
  }

  /** The stretches of lines between the hunks, which are copied. */
  function Kept<T>(lines: seq<T>, hunks: seq<Hunk<T>>, from: nat): seq<seq<T>>
    decreases |hunks|
  {
    if hunks == [] then [From(lines, from)]
    else [Cut(lines, from, Place(hunks[0].oldStart))]
         + Kept(lines, hunks[1..], Place(hunks[0].oldStart) + |OldSide(hunks[0].lines)|)
  }

  /** Kept stretches with the hunks' old or new sides in between. */
  function WeaveOld<T>(kept: seq<seq<T>>, hunks: seq<Hunk<T>>): seq<T>
    requires |kept| == |hunks| + 1
    decreases |hunks|
  {
    if hunks == [] then kept[0] else kept[0] + OldSide(hunks[0].lines) + WeaveOld(kept[1..], hunks[1..])
  }

  function WeaveNew<T>(kept: seq<seq<T>>, hunks: seq<Hunk<T>>): seq<T>
    requires |kept| == |hunks| + 1
    decreases |hunks|
  {
    if hunks == [] then kept[0] else kept[0] + NewSide(hunks[0].lines) + WeaveNew(kept[1..], hunks[1..])
  }

  lemma {:induction false} KeptLength<T>(lines: seq<T>, hunks: seq<Hunk<T>>, from: nat)
    ensures |Kept(lines, hunks, from)| == |hunks| + 1
    decreases |hunks|
  {
    if hunks != [] { KeptLength(lines, hunks[1..], Place(hunks[0].oldStart) + |OldSide(hunks[0].lines)|); }
  }

  lemma {:induction false} HunkReplaces<T>(lines: seq<T>, h: Hunk<T>, from: nat)
    requires RunHunk(lines, h, from).Ok?
    ensures var target, side := Place(h.oldStart), OldSide(h.lines);
            && from <= target
            && RunHunk(lines, h, from).value == (target + |side|, Cut(lines, from, target) + NewSide(h.lines))
            && From(lines, from) == Cut(lines, from, target) + side + From(lines, target + |side|)
  {
    var target, side := Place(h.oldStart), OldSide(h.lines);
    RunLinesReplaces(lines, h.lines, target);
    FromSplits(lines, from, target, side);
  }

  lemma {:induction false} FromSplits<T>(lines: seq<T>, from: nat, target: nat, side: seq<T>)
    requires from <= target && Stands(lines, side, target)
    ensures From(lines, from) == Cut(lines, from, target) + side + From(lines, target + |side|)
  {
    if side != [] {
      assert lines[from..] == lines[from..target] + side + lines[target + |side|..];
    } else if target <= |lines| {
      assert lines[from..] == lines[from..target] + lines[target..];
    }
  }

  /** A diff that applies replaces old sides by new sides and copies everything else in order. */
  lemma {:induction false} DiffReplaces<T>(lines: seq<T>, hunks: seq<Hunk<T>>, from: nat)
    requires ApplyFrom(lines, hunks, from).Ok?
    ensures var kept := Kept(lines, hunks, from);
            && |kept| == |hunks| + 1
            && From(lines, from) == WeaveOld(kept, hunks)
            && ApplyFrom(lines, hunks, from).value == WeaveNew(kept, hunks)
    decreases |hunks|
  {
    KeptLength(lines, hunks, from);
    if hunks != [] {
      HunkReplaces(lines, hunks[0], from);
      var end := Place(hunks[0].oldStart) + |OldSide(hunks[0].lines)|;
      DiffReplaces(lines, hunks[1..], end);
      assert Kept(lines, hunks, from)[1..] == Kept(lines, hunks[1..], end);
    }
  }

  function Count<T>(ls: seq<HunkLine<T>>, kind: LineKind): nat {
    if ls == [] then 0 else (if ls[0].kind == kind then 1 else 0) + Count(ls[1..], kind)
  }

  function CountAll<T>(hunks: seq<Hunk<T>>, kind: LineKind): nat {
    if hunks == [] then 0 else Count(hunks[0].lines, kind) + CountAll(hunks[1..], kind)
  }

  lemma {:induction false} SideLengths<T>(ls: seq<HunkLine<T>>)
    ensures |NewSide(ls)| + Count(ls, Remove) == |OldSide(ls)| + Count(ls, Add)
  {
    if ls != [] { SideLengths(ls[1..]); }
  }

  lemma {:induction false} WeaveLengths<T>(kept: seq<seq<T>>, hunks: seq<Hunk<T>>)
    requires |kept| == |hunks| + 1
    ensures |WeaveNew(kept, hunks)| + CountAll(hunks, Remove) == |WeaveOld(kept, hunks)| + CountAll(hunks, Add)
    decreases |hunks|
  {
    if hunks != [] {
      SideLengths(hunks[0].lines);
      WeaveLengths(kept[1..], hunks[1..]);
    }
  }

  /** The result has the lines of the original, less the removals, plus the additions. */
  lemma {:induction false} ResultLength<T>(lines: seq<T>, hunks: seq<Hunk<T>>)
    requires ApplyFrom(lines, hunks, 0).Ok?
    ensures |ApplyFrom(lines, hunks, 0).value| == |lines| - CountAll(hunks, Remove) + CountAll(hunks, Add)
  {
    DiffReplaces(lines, hunks, 0);
    WeaveLengths(Kept(lines, hunks, 0), hunks);
    assert From(lines, 0) == lines;
  }

  // ---------------------------------------------------------------- inversion

  function SwapLine<T>(l: HunkLine<T>): HunkLine<T> {
    match l.kind
    case Context => l
    case Add => l.(kind := Remove)
    case Remove => l.(kind := Add)
  }

  function SwapLines<T>(ls: seq<HunkLine<T>>): (r: seq<HunkLine<T>>)
    ensures |r| == |ls|
  {
    if ls == [] then [] else [SwapLine(ls[0])] + SwapLines(ls[1..])
  }

  function Swap<T>(h: Hunk<T>): Hunk<T> {
    Hunk(h.newStart, h.newCount, h.oldStart, h.oldCount, SwapLines(h.lines))
  }

  function SwapAll<T>(hunks: seq<Hunk<T>>): (r: seq<Hunk<T>>)
    ensures |r| == |hunks|
  {
    if hunks == [] then [] else [Swap(hunks[0])] + SwapAll(hunks[1..])
  }

  lemma {:induction false} SwappedSides<T>(ls: seq<HunkLine<T>>)
    ensures OldSide(SwapLines(ls)) == NewSide(ls) && NewSide(SwapLines(ls)) == OldSide(ls)
  {
    if ls != [] {
      SwappedSides(ls[1..]);
      assert SwapLines(ls)[1..] == SwapLines(ls[1..]);
    }
  }

  /** Every hunk's new start is the place its lines get in the output, of which `made` lines exist already. */
  ghost predicate Placed<T>(lines: seq<T>, hunks: seq<Hunk<T>>, from: nat, made: nat)
    decreases |hunks|
  {
    hunks == [] ||
    var target := Place(hunks[0].oldStart);
    var at := made + |Cut(lines, from, target)|;
    && Place(hunks[0].newStart) == at
    && Placed(lines, hunks[1..], target + |OldSide(hunks[0].lines)|, at + |NewSide(hunks[0].lines)|)
  }

  lemma {:induction false} SwapRuns<T>(done: seq<T>, h: Hunk<T>, kept: seq<T>, rest: seq<T>, next: seq<T>)
    requires next == done + kept + NewSide(h.lines)
    requires Place(h.newStart) == |done| + |kept| && h.newCount == |NewSide(h.lines)| && h.oldCount == |OldSide(h.lines)|
    ensures RunHunk(next + rest, Swap(h), |done|) == Ok((|next|, kept + OldSide(h.lines)))
  {
    var all, at := next + rest, |done| + |kept|;
    SwappedSides(h.lines);
    RunLinesReplaces(all, SwapLines(h.lines), at);
    assert all[at..at + |NewSide(h.lines)|] == NewSide(h.lines);
    assert Cut(all, |done|, at) == kept;
  }

  lemma {:induction false} ApplyStep<T>(lines: seq<T>, hunks: seq<Hunk<T>>, from: nat, end: nat, out: seq<T>, rest: seq<T>)
    requires hunks != [] && RunHunk(lines, hunks[0], from) == Ok((end, out))
    requires ApplyFrom(lines, hunks[1..], end) == Ok(rest)
    ensures ApplyFrom(lines, hunks, from) == Ok(out + rest)
  {}

  /** The first hunk of a successful application, taken apart. */
  lemma {:induction false} FirstHunk<T>(lines: seq<T>, hunks: seq<Hunk<T>>, from: nat)
    requires hunks != [] && ApplyFrom(lines, hunks, from).Ok?
    ensures var h, target := hunks[0], Place(hunks[0].oldStart);
            var kept, end := Cut(lines, from, target), target + |OldSide(h.lines)|;
            && h.oldCount == |OldSide(h.lines)| && h.newCount == |NewSide(h.lines)|
            && From(lines, from) == kept + OldSide(h.lines) + From(lines, end)
            && ApplyFrom(lines, hunks[1..], end).Ok?
            && ApplyFrom(lines, hunks, from).value == kept + NewSide(h.lines) + ApplyFrom(lines, hunks[1..], end).value
  {
    HunkReplaces(lines, hunks[0], from);
    RunLinesReplaces(lines, hunks[0].lines, Place(hunks[0].oldStart));
  }

  /**
   The swapped hunks undo the change behind any prefix that is already done; what may stand
   behind the result is left alone.
   */
  lemma {:induction false} SwapUndoes<T>(lines: seq<T>, hunks: seq<Hunk<T>>, from: nat, done: seq<T>, extra: seq<T>,
                                      all: seq<T>)
    requires ApplyFrom(lines, hunks, from).Ok? && Placed(lines, hunks, from, |done|)
    requires all == done + (ApplyFrom(lines, hunks, from).value + extra)
    ensures ApplyFrom(all, SwapAll(hunks), |done|) == Ok(From(lines, from) + extra)
    decreases |hunks|
  {
    if hunks == [] {
      assert From(all, |done|) == From(lines, from) + extra;
    } else {
      var next := NextDone(lines, hunks, from, done, extra, all);
      var end := Place(hunks[0].oldStart) + |OldSide(hunks[0].lines)|;
      SwapUndoes(lines, hunks[1..], end, next, extra, all);
      SwapFirst(lines, hunks, from, done, next, all, From(lines, end), extra);
    }
  }

  /** What is done after the first hunk. */
  lemma {:induction false} NextDone<T>(lines: seq<T>, hunks: seq<Hunk<T>>, from: nat, done: seq<T>, extra: seq<T>, all: seq<T>)
    returns (next: seq<T>)
    requires hunks != [] && ApplyFrom(lines, hunks, from).Ok? && Placed(lines, hunks, from, |done|)
    requires all == done + (ApplyFrom(lines, hunks, from).value + extra)
    ensures var h, target := hunks[0], Place(hunks[0].oldStart);
            var end := target + |OldSide(h.lines)|;
            && next == done + Cut(lines, from, target) + NewSide(h.lines)
            && ApplyFrom(lines, hunks[1..], end).Ok? && Placed(lines, hunks[1..], end, |next|)
            && all == next + (ApplyFrom(lines, hunks[1..], end).value + extra)
  {
    var target := Place(hunks[0].oldStart);
    var kept, made := Cut(lines, from, target), NewSide(hunks[0].lines);
    next := done + kept + made;
    var rest := RestAfterFirst(lines, hunks, from);
    Regroup(all, done, ApplyFrom(lines, hunks, from).value, kept, made, rest, extra);
  }

  lemma {:induction false} RestAfterFirst<T>(lines: seq<T>, hunks: seq<Hunk<T>>, from: nat) returns (rest: seq<T>)
    requires hunks != [] && ApplyFrom(lines, hunks, from).Ok?
    ensures var h, target := hunks[0], Place(hunks[0].oldStart);
            && ApplyFrom(lines, hunks[1..], target + |OldSide(h.lines)|) == Ok(rest)
            && ApplyFrom(lines, hunks, from).value == Cut(lines, from, target) + NewSide(h.lines) + rest
  {
    FirstHunk(lines, hunks, from);
    rest := ApplyFrom(lines, hunks[1..], Place(hunks[0].oldStart) + |OldSide(hunks[0].lines)|).value;
  }

  lemma {:induction false} SwapFirst<T>(lines: seq<T>, hunks: seq<Hunk<T>>, from: nat, done: seq<T>, next: seq<T>,
                                     all: seq<T>, back: seq<T>, extra: seq<T>)
    requires hunks != [] && ApplyFrom(lines, hunks, from).Ok? && Placed(lines, hunks, from, |done|)
    requires next == done + Cut(lines, from, Place(hunks[0].oldStart)) + NewSide(hunks[0].lines) && next <= all
    requires back == From(lines, Place(hunks[0].oldStart) + |OldSide(hunks[0].lines)|)
    requires ApplyFrom(all, SwapAll(hunks[1..]), |next|) == Ok(back + extra)
    ensures ApplyFrom(all, SwapAll(hunks), |done|) == Ok(From(lines, from) + extra)
  {
    var h, kept := hunks[0], Cut(lines, from, Place(hunks[0].oldStart));
    assert h.oldCount == |OldSide(h.lines)| && h.newCount == |NewSide(h.lines)|
        && From(lines, from) == kept + OldSide(h.lines) + back by {
      FirstHunk(lines, hunks, from);
    }
    assert all == next + all[|next|..];
    SwapRuns(done, h, kept, all[|next|..], next);
    assert SwapAll(hunks)[0] == Swap(h) && SwapAll(hunks)[1..] == SwapAll(hunks[1..]);
    ApplyStep(all, SwapAll(hunks), |done|, |next|, kept + OldSide(h.lines), back + extra);
    Regroup3(kept + OldSide(h.lines), back, extra);
  }

  lemma {:induction false} Regroup3<T>(a: seq<T>, b: seq<T>, c: seq<T>)
    ensures a + (b + c) == (a + b) + c
  {}

  lemma {:induction false} Regroup<T>(all: seq<T>, a: seq<T>, tail: seq<T>, b: seq<T>, c: seq<T>, d: seq<T>, e: seq<T>)
    requires all == a + (tail + e) && tail == b + c + d
    ensures all == (a + b + c) + (d + e)
  {}

  /** Lines standing behind the result stay behind the restored original. */
  lemma {:induction false} SwapRestoresBefore<T>(lines: seq<T>, hunks: seq<Hunk<T>>, extra: seq<T>)
    requires ApplyFrom(lines, hunks, 0).Ok? && Placed(lines, hunks, 0, 0)
    ensures ApplyFrom(ApplyFrom(lines, hunks, 0).value + extra, SwapAll(hunks), 0) == Ok(lines + extra)
  {
    var all := ApplyFrom(lines, hunks, 0).value + extra;
    assert [] + all == all;
    SwapUndoes(lines, hunks, 0, [], extra, all);
    assert From(lines, 0) == lines;
  }

  /** Line lists: if the hunks are placed where they say, swapping their sides restores the original. */
  lemma {:induction false} SwapRestores<T>(lines: seq<T>, hunks: seq<Hunk<T>>)
    requires ApplyFrom(lines, hunks, 0).Ok? && Placed(lines, hunks, 0, 0)
    ensures ApplyFrom(ApplyFrom(lines, hunks, 0).value, SwapAll(hunks), 0) == Ok(lines)
  {
    SwapRestoresBefore(lines, hunks, []);
    assert ApplyFrom(lines, hunks, 0).value + [] == ApplyFrom(lines, hunks, 0).value && lines + [] == lines;
  }

  // ---------------------------------------------------------------- exactly when swapping restores

  ghost predicate Unique<T>(lines: seq<T>) {
    forall i, j | 0 <= i < j < |lines| :: lines[i] != lines[j]
  }

  ghost predicate NoneEmpty<T>(hunks: seq<Hunk<T>>) {
    forall i | 0 <= i < |hunks| :: hunks[i].lines != []
  }

  /**
   Every hunk's new start is the place its lines get in the result of `total` lines; only a
   hunk that leaves nothing at the end of the result may say any place from there on. `made`
   lines of the result exist already, and the last hunk ended at `source`.
   */
  ghost predicate Lands<T>(lines: seq<T>, hunks: seq<Hunk<T>>, from: nat, made: nat, source: nat, total: nat)
    decreases |hunks|
  {
    hunks == [] ||
    var target, start := Place(hunks[0].oldStart), Place(hunks[0].newStart);
    var at := made + |Cut(lines, from, target)|;
    && source <= start
    && (start == at || (NewSide(hunks[0].lines) == [] && at == total && start >= total))
    && Lands(lines, hunks[1..], target + |OldSide(hunks[0].lines)|, at + |NewSide(hunks[0].lines)|,
             start + |NewSide(hunks[0].lines)|, total)
  }

  /** `all` is the finished result: `made` lines and what the hunks leave; reading it has come to `source`. */
  ghost predicate Halfway<T>(lines: seq<T>, hunks: seq<Hunk<T>>, from: nat, made: nat, source: nat, all: seq<T>) {
    && ApplyFrom(lines, hunks, from).Ok? && made <= |all| && all[made..] == ApplyFrom(lines, hunks, from).value
    && (source == made || (made == |all| && source >= made))
  }

  ghost predicate Restores<T>(lines: seq<T>, hunks: seq<Hunk<T>>, from: nat, source: nat, all: seq<T>) {
    ApplyFrom(all, SwapAll(hunks), source) == Ok(From(lines, from))
  }

  lemma {:induction false} SidesOfSome<T>(ls: seq<HunkLine<T>>)
    requires ls != []
    ensures OldSide(ls) != [] || NewSide(ls) != []
  {}

  /** A side that stands in a list of different lines stands in one place only. */
  lemma {:induction false} StandsOnce<T>(all: seq<T>, side: seq<T>, i: nat, j: nat)
    requires Unique(all) && side != [] && Stands(all, side, i) && Stands(all, side, j)
    ensures i == j
  {
    assert all[i..i + |side|][0] == all[i] && all[j..j + |side|][0] == all[j];
  }

  /** In a list of different lines, a line in front of which stand `a` and also `b` fixes their length. */
  lemma {:induction false} SameFront<T>(all: seq<T>, a: seq<T>, b: seq<T>, side: seq<T>, c: seq<T>, d: seq<T>)
    requires Unique(all) && side != [] && all == a + side + c && all == b + side + d
    ensures a == b && c == d
  {
    assert all[|a|] == side[0] && all[|b|] == side[0];
    assert a == all[..|a|] && b == all[..|b|];
    assert c == all[|a| + |side|..] && d == all[|b| + |side|..];
  }

  lemma {:induction false} UniqueFrom<T>(lines: seq<T>, from: nat)
    requires Unique(lines)
    ensures Unique(From(lines, from))
  {}

  lemma {:induction false} TailParts<T>(all: seq<T>, made: nat, kept: seq<T>, side: seq<T>, rest: seq<T>)
    requires made <= |all| && all[made..] == kept + side + rest
    ensures var at := made + |kept|;
            && at + |side| <= |all| && all[made..at] == kept && Stands(all, side, at) && all[at + |side|..] == rest
  {
    var tail, at := all[made..], made + |kept|;
    assert tail[..|kept|] == kept && tail[|kept|..|kept| + |side|] == side && tail[|kept| + |side|..] == rest;
    assert all[made..at] == tail[..|kept|] && all[at..at + |side|] == tail[|kept|..|kept| + |side|];
    assert all[at + |side|..] == tail[|kept| + |side|..];
  }

  /** The parts of a half-finished result around its first hunk. */
  datatype Half<T> = Half(
    kept: seq<T>, oldSide: seq<T>, newSide: seq<T>, back: seq<T>, whole: seq<T>, made: nat, source: nat, all: seq<T>)
  {
    function At(): nat { made + |kept| }

    ghost predicate Fits() {
      && whole == kept + oldSide + back && Unique(whole) && Unique(all) && (oldSide != [] || newSide != [])
      && At() + |newSide| <= |all| && all[made..At()] == kept && Stands(all, newSide, At())
      && (source == made || (made == |all| && source >= made))
    }

    /** The swapped hunk may start here. */
    predicate LandsAt(start: nat) {
      source <= start && (start == At() || (newSide == [] && At() == |all| && start >= |all|))
    }
  }

  lemma {:induction false} HalfFits<T>(half: Half<T>, rest: seq<T>)
    requires half.whole == half.kept + half.oldSide + half.back && Unique(half.whole) && Unique(half.all)
    requires half.oldSide != [] || half.newSide != []
    requires half.made <= |half.all| && half.all[half.made..] == half.kept + half.newSide + rest
    requires half.source == half.made || (half.made == |half.all| && half.source >= half.made)
    ensures half.Fits() && half.all[half.At() + |half.newSide|..] == rest
  {
    TailParts(half.all, half.made, half.kept, half.newSide, rest);
  }

  /** The first hunk of an application, with its parts as variables. */
  lemma {:induction false} HunkParts<T>(lines: seq<T>, hunks: seq<Hunk<T>>, from: nat)
    returns (kept: seq<T>, oldSide: seq<T>, newSide: seq<T>, rest: seq<T>, end: nat)
    requires hunks != [] && ApplyFrom(lines, hunks, from).Ok?
    ensures kept == Cut(lines, from, Place(hunks[0].oldStart))
    ensures oldSide == OldSide(hunks[0].lines) && newSide == NewSide(hunks[0].lines) && end == Place(hunks[0].oldStart) + |oldSide|
    ensures hunks[0].oldCount == |oldSide| && hunks[0].newCount == |newSide|
    ensures From(lines, from) == kept + oldSide + From(lines, end)
    ensures ApplyFrom(lines, hunks[1..], end) == Ok(rest) && ApplyFrom(lines, hunks, from) == Ok(kept + newSide + rest)
  {
    FirstHunk(lines, hunks, from);
    kept, oldSide, newSide := Cut(lines, from, Place(hunks[0].oldStart)), OldSide(hunks[0].lines), NewSide(hunks[0].lines);
    end := Place(hunks[0].oldStart) + |oldSide|;
    rest := ApplyFrom(lines, hunks[1..], end).value;
  }

  /** The first hunk of a half-finished result, and what is left behind it. */
  lemma {:induction false} FirstHalf<T>(lines: seq<T>, hunks: seq<Hunk<T>>, from: nat, made: nat, source: nat, all: seq<T>)
    returns (half: Half<T>, rest: seq<T>, end: nat)
    requires Unique(lines) && Unique(all) && hunks != [] && hunks[0].lines != [] && Halfway(lines, hunks, from, made, source, all)
    ensures half.Fits() && half.made == made && half.source == source && half.all == all
    ensures half.kept == Cut(lines, from, Place(hunks[0].oldStart)) && end == Place(hunks[0].oldStart) + |half.oldSide|
    ensures half.oldSide == OldSide(hunks[0].lines) && half.newSide == NewSide(hunks[0].lines)
    ensures hunks[0].oldCount == |half.oldSide| && hunks[0].newCount == |half.newSide|
    ensures half.whole == From(lines, from) && half.back == From(lines, end)
    ensures ApplyFrom(lines, hunks[1..], end) == Ok(rest) && all[half.At() + |half.newSide|..] == rest
  {
    var kept, oldSide, newSide;
    kept, oldSide, newSide, rest, end := HunkParts(lines, hunks, from);
    SidesOfSome(hunks[0].lines);
    UniqueFrom(lines, from);
    half := Half(kept, oldSide, newSide, From(lines, end), From(lines, from), made, source, all);
    HalfFits(half, rest);
  }

  /** And the result is half-finished again behind a hunk that landed. */
  lemma {:induction false} SecondHalf<T>(lines: seq<T>, hunks: seq<Hunk<T>>, half: Half<T>, start: nat, end: nat, rest: seq<T>,
                                      at: nat, next: nat)
    requires half.Fits() && half.LandsAt(start) && at == half.At() + |half.newSide| && next == start + |half.newSide|
    requires ApplyFrom(lines, hunks, end) == Ok(rest) && half.all[at..] == rest
    ensures Halfway(lines, hunks, end, at, next, half.all)
  {}

  /** The swapped hunk runs exactly where its new side stands. */
  lemma {:induction false} SwappedRuns<T>(all: seq<T>, h: Hunk<T>, source: nat, start: nat)
    requires start == Place(h.newStart) && h.oldCount == |OldSide(h.lines)| && h.newCount == |NewSide(h.lines)|
    ensures RunHunk(all, Swap(h), source).Ok? <==> source <= start && Stands(all, NewSide(h.lines), start)
    ensures RunHunk(all, Swap(h), source).Ok? ==>
              RunHunk(all, Swap(h), source) == Ok((start + |NewSide(h.lines)|, Cut(all, source, start) + OldSide(h.lines)))
  {
    SwappedSides(h.lines);
    RunLinesReplaces(all, SwapLines(h.lines), start);
  }

  /** What the swapped hunks do: the first one runs where it can, and then the others follow. */
  lemma {:induction false} SwappedFirst<T>(all: seq<T>, hunks: seq<Hunk<T>>, source: nat, start: nat, oldSide: seq<T>, newSide: seq<T>)
    returns (whole: Result<seq<T>>, after: Result<seq<T>>)
    requires hunks != [] && start == Place(hunks[0].newStart)
    requires oldSide == OldSide(hunks[0].lines) && newSide == NewSide(hunks[0].lines)
    requires hunks[0].oldCount == |oldSide| && hunks[0].newCount == |newSide|
    ensures whole == ApplyFrom(all, SwapAll(hunks), source) && after == ApplyFrom(all, SwapAll(hunks[1..]), start + |newSide|)
    ensures whole.Ok? ==> source <= start && Stands(all, newSide, start)
    ensures source <= start && Stands(all, newSide, start) ==> whole == Behind(Cut(all, source, start) + oldSide, after)
  {
    whole, after := ApplyFrom(all, SwapAll(hunks), source), ApplyFrom(all, SwapAll(hunks[1..]), start + |newSide|);
    SwappedRuns(all, hunks[0], source, start);
    assert SwapAll(hunks)[0] == Swap(hunks[0]) && SwapAll(hunks)[1..] == SwapAll(hunks[1..]);
    if source <= start && Stands(all, newSide, start) {
      ApplyUnfolds(all, SwapAll(hunks), source, start + |newSide|, Cut(all, source, start) + oldSide);
    }
  }

  /** The swapped hunk puts its lines back where they stood exactly when it lands. */
  lemma {:induction false} LandsExactly<T>(half: Half<T>, start: nat, rest: seq<T>)
    requires half.Fits() && half.source <= start && Stands(half.all, half.newSide, start)
    ensures Cut(half.all, half.source, start) + half.oldSide + rest == half.whole <==> half.LandsAt(start) && rest == half.back
  {
    if half.LandsAt(start) {
      LandedCut(half, start);
    } else if half.newSide != [] {
      StandsOnce(half.all, half.newSide, half.At(), start);
    }
    if Cut(half.all, half.source, start) + half.oldSide + rest == half.whole {
      PutBack(half, start, rest);
    }
  }

  lemma {:induction false} LandedCut<T>(half: Half<T>, start: nat)
    requires half.Fits() && half.LandsAt(start)
    ensures Stands(half.all, half.newSide, start) && Cut(half.all, half.source, start) == half.kept
  {}

  lemma {:induction false} PutBack<T>(half: Half<T>, start: nat, rest: seq<T>)
    requires half.Fits() && half.source <= start && Stands(half.all, half.newSide, start)
    requires Cut(half.all, half.source, start) + half.oldSide + rest == half.whole
    ensures half.LandsAt(start) && rest == half.back
  {
    var cut := Cut(half.all, half.source, start);
    if half.newSide != [] {
      StandsOnce(half.all, half.newSide, half.At(), start);
      LandedCut(half, start);
      assert rest == half.whole[|cut| + |half.oldSide|..];
    } else {
      SameFront(half.whole, cut, half.kept, half.oldSide, rest, half.back);
    }
  }

  lemma {:induction false} StepExactly<T>(half: Half<T>, start: nat, whole: Result<seq<T>>, after: Result<seq<T>>)
    requires half.Fits()
    requires whole.Ok? ==> half.source <= start && Stands(half.all, half.newSide, start)
    requires half.source <= start && Stands(half.all, half.newSide, start)
             ==> whole == Behind(Cut(half.all, half.source, start) + half.oldSide, after)
    ensures whole == Ok(half.whole) <==> half.LandsAt(start) && after == Ok(half.back)
  {
    if half.source <= start && Stands(half.all, half.newSide, start) {
      if after.Ok? { LandsExactly(half, start, after.value); }
    } else if half.LandsAt(start) {
      LandedCut(half, start);
    }
  }

  /** One hunk of the exact condition. */
  lemma {:induction false} RestoresStep<T>(lines: seq<T>, hunks: seq<Hunk<T>>, from: nat, half: Half<T>, end: nat, start: nat, next: nat)
    returns (now: bool, later: bool)
    requires hunks != [] && start == Place(hunks[0].newStart) && half.Fits() && next == start + |half.newSide|
    requires half.oldSide == OldSide(hunks[0].lines) && half.newSide == NewSide(hunks[0].lines)
    requires hunks[0].oldCount == |half.oldSide| && hunks[0].newCount == |half.newSide|
    requires half.whole == From(lines, from) && half.back == From(lines, end)
    ensures now == Restores(lines, hunks, from, half.source, half.all)
    ensures later == Restores(lines, hunks[1..], end, next, half.all)
    ensures now == (half.LandsAt(start) && later)
  {
    var whole, after := SwappedFirst(half.all, hunks, half.source, start, half.oldSide, half.newSide);
    StepExactly(half, start, whole, after);
    now, later := whole == Ok(half.whole), after == Ok(half.back);
  }

  lemma {:induction false} LandsStep<T>(lines: seq<T>, hunks: seq<Hunk<T>>, from: nat, half: Half<T>, end: nat, start: nat, at: nat,
                                     next: nat)
    returns (now: bool, later: bool)
    requires next == start + |half.newSide| && at == half.At() + |half.newSide|
    requires hunks != [] && start == Place(hunks[0].newStart) && end == Place(hunks[0].oldStart) + |OldSide(hunks[0].lines)|
    requires half.kept == Cut(lines, from, Place(hunks[0].oldStart)) && half.newSide == NewSide(hunks[0].lines)
    ensures now == Lands(lines, hunks, from, half.made, half.source, |half.all|)
    ensures later == Lands(lines, hunks[1..], end, at, next, |half.all|)
    ensures now == (half.LandsAt(start) && later)
  {
    now := Lands(lines, hunks, from, half.made, half.source, |half.all|);
    later := Lands(lines, hunks[1..], end, at, next, |half.all|);
    LandsUnfolds(lines, hunks, from, half.made, half.source, |half.all|, half.At(), end, at, next);
  }

  lemma {:induction false} LandsUnfolds<T>(lines: seq<T>, hunks: seq<Hunk<T>>, from: nat, made: nat, source: nat, total: nat,
                                        place: nat, end: nat, at: nat, next: nat)
    requires hunks != [] && place == made + |Cut(lines, from, Place(hunks[0].oldStart))|
    requires end == Place(hunks[0].oldStart) + |OldSide(hunks[0].lines)| && at == place + |NewSide(hunks[0].lines)|
    requires next == Place(hunks[0].newStart) + |NewSide(hunks[0].lines)|
    ensures var start := Place(hunks[0].newStart);
            Lands(lines, hunks, from, made, source, total)
            == (&& source <= start && (start == place || (NewSide(hunks[0].lines) == [] && place == total && start >= total))
                && Lands(lines, hunks[1..], end, at, next, total))
  {}

  lemma {:induction false} NothingLeft<T>(lines: seq<T>, from: nat, made: nat, source: nat, all: seq<T>)
    requires Halfway(lines, [], from, made, source, all)
    ensures Restores(lines, [], from, source, all) && Lands(lines, [], from, made, source, |all|)
  {
    assert From(all, source) == From(lines, from);
  }

  lemma {:induction false} RestoresIfLands<T>(lines: seq<T>, hunks: seq<Hunk<T>>, from: nat, made: nat, source: nat, all: seq<T>)
    returns (restores: bool, lands: bool)
    requires Unique(lines) && Unique(all) && NoneEmpty(hunks) && Halfway(lines, hunks, from, made, source, all)
    ensures restores == Restores(lines, hunks, from, source, all) && lands == Lands(lines, hunks, from, made, source, |all|)
    ensures restores == lands
    decreases |hunks|
  {
    if hunks == [] {
      NothingLeft(lines, from, made, source, all);
      restores, lands := true, true;
    } else {
      var half, rest, end := FirstHalf(lines, hunks, from, made, source, all);
      var start := Place(hunks[0].newStart);
      var at, next := half.At() + |half.newSide|, start + |half.newSide|;
      if half.LandsAt(start) { SecondHalf(lines, hunks[1..], half, start, end, rest, at, next); }
      restores, lands := RestoresNext(lines, hunks, from, half, start, end, at, next);
    }
  }

  lemma {:induction false} RestoresNext<T>(lines: seq<T>, hunks: seq<Hunk<T>>, from: nat, half: Half<T>, start: nat, end: nat, at: nat,
                                        next: nat)
    returns (restores: bool, lands: bool)
    requires Unique(lines) && hunks != [] && NoneEmpty(hunks) && half.Fits() && start == Place(hunks[0].newStart)
    requires half.kept == Cut(lines, from, Place(hunks[0].oldStart)) && end == Place(hunks[0].oldStart) + |half.oldSide|
    requires half.oldSide == OldSide(hunks[0].lines) && half.newSide == NewSide(hunks[0].lines)
    requires hunks[0].oldCount == |half.oldSide| && hunks[0].newCount == |half.newSide|
    requires half.whole == From(lines, from) && half.back == From(lines, end)
    requires at == half.At() + |half.newSide| && next == start + |half.newSide|
    requires half.LandsAt(start) ==> Halfway(lines, hunks[1..], end, at, next, half.all)
    ensures restores == Restores(lines, hunks, from, half.source, half.all)
    ensures lands == Lands(lines, hunks, from, half.made, half.source, |half.all|)
    ensures restores == lands
    decreases |hunks|, 0
  {
    var laterRestores, laterLands;
    restores, laterRestores := RestoresStep(lines, hunks, from, half, end, start, next);
    lands, laterLands := LandsStep(lines, hunks, from, half, end, start, at, next);
    if half.LandsAt(start) {
      NoneEmptyTail(hunks);
      var again, landing := RestoresIfLands(lines, hunks[1..], end, at, next, half.all);
    }
  }

  lemma {:induction false} NoneEmptyTail<T>(hunks: seq<Hunk<T>>)
    requires hunks != [] && NoneEmpty(hunks)
    ensures NoneEmpty(hunks[1..])
  {
    forall i | 0 <= i < |hunks[1..]| ensures hunks[1..][i].lines != [] { assert hunks[1..][i] == hunks[i + 1]; }
  }

  /**
   When no line occurs twice, neither before nor after, and no hunk is empty, swapping the sides
   restores the original exactly when every hunk lands where its new start says.
   */
  lemma {:induction false} SwapRestoresExactly<T>(lines: seq<T>, hunks: seq<Hunk<T>>)
    requires ApplyFrom(lines, hunks, 0).Ok? && NoneEmpty(hunks) && Unique(lines) && Unique(ApplyFrom(lines, hunks, 0).value)
    ensures var all := ApplyFrom(lines, hunks, 0).value;
            ApplyFrom(all, SwapAll(hunks), 0) == Ok(lines) <==> Lands(lines, hunks, 0, 0, 0, |all|)
  {
    var all := ApplyFrom(lines, hunks, 0).value;
    assert all[0..] == all && From(lines, 0) == lines;
    var restores, lands := RestoresIfLands(lines, hunks, 0, 0, 0, all);
  }

  /** Hunks that name no place behind the end of the result land exactly when they are placed. */
  lemma {:induction false} LandsIsPlaced<T>(lines: seq<T>, hunks: seq<Hunk<T>>, from: nat, made: nat, total: nat)
    requires forall i | 0 <= i < |hunks| :: Place(hunks[i].newStart) <= total
    ensures Lands(lines, hunks, from, made, made, total) <==> Placed(lines, hunks, from, made)
    decreases |hunks|
  {
    if hunks != [] {
      var at := made + |Cut(lines, from, Place(hunks[0].oldStart))|;
      assert forall i | 0 <= i < |hunks[1..]| :: hunks[1..][i] == hunks[i + 1];
      LandsIsPlaced(lines, hunks[1..], Place(hunks[0].oldStart) + |OldSide(hunks[0].lines)|, at + |NewSide(hunks[0].lines)|, total);
    }
  }

  /** The same in terms of the placement, for new starts within the result. */
  lemma {:induction false} SwapRestoresIfPlaced<T>(lines: seq<T>, hunks: seq<Hunk<T>>)
    requires ApplyFrom(lines, hunks, 0).Ok? && NoneEmpty(hunks) && Unique(lines) && Unique(ApplyFrom(lines, hunks, 0).value)
    requires forall i | 0 <= i < |hunks| :: Place(hunks[i].newStart) <= |ApplyFrom(lines, hunks, 0).value|
    ensures ApplyFrom(ApplyFrom(lines, hunks, 0).value, SwapAll(hunks), 0) == Ok(lines) <==> Placed(lines, hunks, 0, 0)
  {
    SwapRestoresExactly(lines, hunks);
    LandsIsPlaced(lines, hunks, 0, 0, |ApplyFrom(lines, hunks, 0).value|);
  }

  // ---------------------------------------------------------------- insertions

  /** A hunk that only adds `added` in front of the line that its old start names. */
  ghost predicate Inserts<T>(h: Hunk<T>, added: seq<T>) {
    h.oldCount == 0 && h.newCount == |added| && OldSide(h.lines) == [] && NewSide(h.lines) == added
  }

  /** The lines go in front of the line with the number of the old start, or to the end. */
  lemma {:induction false} InsertsInFront<T>(lines: seq<T>, h: Hunk<T>, added: seq<T>)
    requires Inserts(h, added)
    ensures ApplyFrom(lines, [h], 0) == Ok(Cut(lines, 0, Place(h.oldStart)) + added + From(lines, Place(h.oldStart)))
  {
    var at := Place(h.oldStart);
    RunLinesReplaces(lines, h.lines, at);
    assert [h][1..] == [];
    ApplyStep(lines, [h], 0, at, Cut(lines, 0, at) + added, From(lines, at));
  }

  /**
   The usual reading of a hunk that removes nothing is to insert behind the line it names. The
   two agree exactly at the beginning, and where all that is added is copies of that line.
   */
  lemma {:induction false} InsertionAgrees<T>(lines: seq<T>, h: Hunk<T>, added: seq<T>)
    requires Inserts(h, added) && h.oldStart <= |lines|
    ensures ApplyFrom(lines, [h], 0) == Ok(lines[..h.oldStart] + added + lines[h.oldStart..])
       <==> h.oldStart == 0 || forall i | 0 <= i < |added| :: added[i] == lines[h.oldStart - 1]
  {
    InsertsInFront(lines, h, added);
    var k := h.oldStart;
    if k == 0 {
      assert Cut(lines, 0, 0) == lines[..0] && From(lines, 0) == lines[0..];
    } else {
      var front, line, back := lines[..k - 1], lines[k - 1], lines[k..];
      assert Cut(lines, 0, k - 1) == front && From(lines, k - 1) == [line] + back && lines[..k] == front + [line];
      InsertionCommutes(front, added, line, back);
    }
  }

  lemma {:induction false} InsertionCommutes<T>(front: seq<T>, added: seq<T>, line: T, back: seq<T>)
    ensures front + added + ([line] + back) == front + [line] + added + back <==> forall i | 0 <= i < |added| :: added[i] == line
  {
    if front + added + ([line] + back) == front + [line] + added + back {
      forall i | 0 <= i < |added| ensures added[i] == line { CopiesOf(front, added, line, back, i); }
    }
    if forall i | 0 <= i < |added| :: added[i] == line {
      assert added + [line] == [line] + added;
      assert front + added + ([line] + back) == front + (added + [line]) + back;
      assert front + [line] + added + back == front + ([line] + added) + back;
    }
  }

  lemma {:induction false} CopiesOf<T>(front: seq<T>, added: seq<T>, line: T, back: seq<T>, i: nat)
    requires front + added + ([line] + back) == front + [line] + added + back && i < |added|
    ensures added[i] == line
  {
    var here, there := front + added + ([line] + back), front + [line] + added + back;
    assert here[|front| + i] == added[i];
    if i == 0 {
      assert there[|front|] == line;
    } else {
      assert there[|front| + i] == added[i - 1];
      CopiesOf(front, added, line, back, i - 1);
    }
  }
}
