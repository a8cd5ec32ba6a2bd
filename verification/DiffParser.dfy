/**
 Reading unified diffs: the header pattern, the line-by-line parse, and a printer it inverts.
 */
module DiffParser {
  import opened CodeUnits
  import opened Decimal
  import opened LineDiff
  import opened UnifiedDiff
  import opened Wrappers

  const SPACE: CodeUnit := 0x20

  /** The rest of `t` behind the prefix `p`. */
  function Behind(t: Text, p: Text): Option<Text> {
    if p <= t then Some(t[|p|..]) else None
  }

  /** A run of digits and what follows it. */
  function ReadNumber(t: Text): Option<(nat, Text)> {
    var n := DigitRun(t);
    if n == 0 then None else DigitRunUnits(t); Some((ValueOf(t[..n]), t[n..]))
  }

  /** An optional comma and number; the count is 1 when they are missing. */
  function ReadCount(t: Text): (nat, Text) {
    if t != [] && t[0] == COMMA && ReadNumber(t[1..]).Some? then ReadNumber(t[1..]).value else (1, t)
  }

  /** Start and count of one side. */
  function ReadSide(t: Text): Option<((nat, nat), Text)> {
    match ReadNumber(t)
    case None => None
    case Some((start, rest)) => var c := ReadCount(rest); Some(((start, c.0), c.1))
  }

  function Opening(): Text { [AT, AT, SPACE, MINUS] }

  function Middle(): Text { [SPACE, PLUS] }

  function Closing(): Text { [SPACE, AT, AT] }

  /** The hunk header pattern at the beginning of a line. */
  function ReadHeader(line: Text): Option<Hunk<Text>> {
    match Behind(line, Opening())
    case None => None
    case Some(a) =>
      match ReadSide(a)
      case None => None
      case Some((oldSide, b)) =>
        match Behind(b, Middle())
        case None => None
        case Some(c) =>
          match ReadSide(c)
          case None => None
          case Some((newSide, d)) =>
            if Behind(d, Closing()).None? then None
            else Some(Hunk(oldSide.0, oldSide.1, newSide.0, newSide.1, []))
  }

  function NoNewlineMark(): Text { Ascii("\\ No newline at end of file") }

  function AddLine(hunks: seq<Hunk<Text>>, l: HunkLine<Text>): seq<Hunk<Text>>
    requires hunks != []
  {
    var last := hunks[|hunks| - 1];
    hunks[..|hunks| - 1] + [last.(lines := last.lines + [l])]
  }

  /** One line of the diff added to the hunks read so far. */
  function ParseLine(hunks: seq<Hunk<Text>>, line: Text): Result<seq<Hunk<Text>>> {
    if ReadHeader(line).Some? then Ok(hunks + [ReadHeader(line).value])
    else if hunks == [] || NoNewlineMark() <= line || line == [] then Ok(hunks)
    else if line[0] == SPACE then Ok(AddLine(hunks, HunkLine(Context, line[1..])))
    else if line[0] == PLUS then Ok(AddLine(hunks, HunkLine(Add, line[1..])))
    else if line[0] == MINUS then Ok(AddLine(hunks, HunkLine(Remove, line[1..])))
    else Err(InvalidLine)
  }

  function ParseLines(hunks: seq<Hunk<Text>>, lines: seq<Text>): Result<seq<Hunk<Text>>>
    decreases |lines|
  {
    if lines == [] then Ok(hunks)
    else match ParseLine(hunks, lines[0])
      case Err(e) => Err(e)
      case Ok(next) => ParseLines(next, lines[1..])
  }

  function Parsed(diff: Text): Result<seq<Hunk<Text>>> {
    match ParseLines([], SplitLines(Normalize(diff)))
    case Err(e) => Err(e)
    case Ok(hunks) => if hunks == [] then Err(NoHunks) else Ok(hunks)
  }

  /** parseHunks. */
  method ParseHunks(diff: Text) returns (r: Result<seq<Hunk<Text>>>)
    ensures r == Parsed(diff)
  {
    var lines := SplitLines(Normalize(diff));
    var hunks: seq<Hunk<Text>> := [];
    ghost var left := lines;
    for i := 0 to |lines|
      invariant left == lines[i..]
      invariant ParseLines([], lines) == ParseLines(hunks, left)
    {
      var line := lines[i];
      assert left[0] == line && left[1..] == lines[i + 1..];
      left := left[1..];
      var header := ReadHeader(line);
      if header.Some? { hunks := hunks + [header.value]; continue; }
      if hunks == [] { continue; }
      if NoNewlineMark() <= line { continue; }
      if line == [] { continue; }
      if line[0] == SPACE { hunks := AddLine(hunks, HunkLine(Context, line[1..])); }
      else if line[0] == PLUS { hunks := AddLine(hunks, HunkLine(Add, line[1..])); }
      else if line[0] == MINUS { hunks := AddLine(hunks, HunkLine(Remove, line[1..])); }
      else { return Err(InvalidLine); }
    }
    if hunks == [] { return Err(NoHunks); }
    return Ok(hunks);
  }

  /** applyUnifiedDiff. */
  method ApplyUnifiedDiff(original: Text, diff: Text) returns (r: Result<Text>)
    ensures r == match Parsed(diff) { case Err(e) => Err(e) case Ok(hunks) => ApplyToText(original, hunks) }
  {
    var parsed := ParseHunks(diff);
    if parsed.Err? { return Err(parsed.error); }
    var applied := ApplyToLines(ToLines(original), parsed.value);
    if applied.Err? { return Err(applied.error); }
    return Ok(ToText(applied.value, EndsWithNewline(original)));
  }

  // ---------------------------------------------------------------- printing

  /** How a diff is printed: a count of one may be left out, and a heading may follow the pattern. */
  datatype Style = Style(brief: bool, heading: Text)

  function PrintSide(start: nat, count: nat, style: Style): Text {
    Digits(start) + if style.brief && count == 1 then [] else [COMMA] + Digits(count)
  }

  function PrintHeader(h: Hunk<Text>, style: Style): Text {
    Opening() + PrintSide(h.oldStart, h.oldCount, style) + Middle() + PrintSide(h.newStart, h.newCount, style) + Closing() + style.heading
  }

  function PrintLine(l: HunkLine<Text>): Text {
    [match l.kind case Context => SPACE case Add => PLUS case Remove => MINUS] + l.text
  }

  function PrintBody(ls: seq<HunkLine<Text>>): seq<Text> {
    if ls == [] then [] else [PrintLine(ls[0])] + PrintBody(ls[1..])
  }

  function PrintHunks(hunks: seq<Hunk<Text>>, style: Style): seq<Text> {
    if hunks == [] then [] else [PrintHeader(hunks[0], style)] + PrintBody(hunks[0].lines) + PrintHunks(hunks[1..], style)
  }

  lemma {:induction false} DigitRunExact(d: Text, rest: Text)
    requires AllDigits(d) && (rest == [] || !IsDigit(rest[0]))
    ensures DigitRun(d + rest) == |d|
  {
    if d == [] {
      assert d + rest == rest;
    } else {
      DigitRunExact(d[1..], rest);
      assert (d + rest)[1..] == d[1..] + rest;
    }
  }

  lemma {:induction false} ReadDigits(n: nat, rest: Text)
    requires rest == [] || !IsDigit(rest[0])
    ensures ReadNumber(Digits(n) + rest) == Some((n, rest))
  {
    DigitRunExact(Digits(n), rest);
    ValueOfDigits(n);
    var t := Digits(n) + rest;
    assert t[..|Digits(n)|] == Digits(n) && t[|Digits(n)|..] == rest;
  }

  /** A side without a count has one line. */
  lemma {:induction false} ReadPrintedSide(start: nat, count: nat, style: Style, rest: Text)
    requires rest != [] && rest[0] == SPACE
    ensures ReadSide(PrintSide(start, count, style) + rest) == Some(((start, count), rest))
  {
    if style.brief && count == 1 {
      assert PrintSide(start, count, style) + rest == Digits(start) + rest;
      ReadDigits(start, rest);
    } else {
      var tail := [COMMA] + (Digits(count) + rest);
      assert PrintSide(start, count, style) + rest == Digits(start) + tail;
      ReadDigits(start, tail);
      ReadDigits(count, rest);
      assert tail[1..] == Digits(count) + rest;
    }
  }

  lemma {:induction false} BehindPrefix(p: Text, rest: Text)
    ensures Behind(p + rest, p) == Some(rest)
  {
    assert (p + rest)[|p|..] == rest;
  }

  lemma {:induction false} ReadPrintedSides(h: Hunk<Text>, style: Style, a: Text, b: Text)
    requires b == PrintSide(h.newStart, h.newCount, style) + (Closing() + style.heading)
    requires a == PrintSide(h.oldStart, h.oldCount, style) + (Middle() + b)
    ensures ReadSide(a) == Some(((h.oldStart, h.oldCount), Middle() + b))
    ensures ReadSide(b) == Some(((h.newStart, h.newCount), Closing() + style.heading))
  {
    ReadPrintedSide(h.oldStart, h.oldCount, style, Middle() + b);
    ReadPrintedSide(h.newStart, h.newCount, style, Closing() + style.heading);
  }

  /** A printed header is read as the header it came from. */
  lemma {:induction false} ReadPrintedHeader(h: Hunk<Text>, style: Style)
    ensures ReadHeader(PrintHeader(h, style)) == Some(h.(lines := []))
  {
    var c := Closing() + style.heading;
    var b := PrintSide(h.newStart, h.newCount, style) + c;
    var a := PrintSide(h.oldStart, h.oldCount, style) + (Middle() + b);
    assert PrintHeader(h, style) == Opening() + a;
    BehindPrefix(Opening(), a);
    ReadPrintedSides(h, style, a, b);
    BehindPrefix(Middle(), b);
    BehindPrefix(Closing(), style.heading);
  }

  lemma {:induction false} PrefixFirst(p: Text, t: Text)
    requires p != [] && t != []
    ensures p <= t ==> t[0] == p[0]
  {}

  lemma {:induction false} ParsePrintedLine(hunks: seq<Hunk<Text>>, l: HunkLine<Text>)
    requires hunks != []
    ensures ParseLine(hunks, PrintLine(l)) == Ok(AddLine(hunks, l))
  {
    var line := PrintLine(l);
    assert line[1..] == l.text && line[0] != AT && line[0] != BACKSLASH;
    PrefixFirst(Opening(), line);
    PrefixFirst(NoNewlineMark(), line);
  }

  lemma {:induction false} ParseAppended(hunks: seq<Hunk<Text>>, a: seq<Text>, b: seq<Text>, mid: seq<Hunk<Text>>)
    requires ParseLines(hunks, a) == Ok(mid)
    ensures ParseLines(hunks, a + b) == ParseLines(mid, b)
    decreases |a|
  {
    if a == [] {
      assert a + b == b;
    } else {
      ParseAppended(ParseLine(hunks, a[0]).value, a[1..], b, mid);
      assert (a + b)[1..] == a[1..] + b;
    }
  }

  lemma {:induction false} AddToLast(done: seq<Hunk<Text>>, h: Hunk<Text>, l: HunkLine<Text>)
    ensures AddLine(done + [h], l) == done + [h.(lines := h.lines + [l])]
  {
    assert (done + [h])[..|done|] == done;
  }

  lemma {:induction false} ParseStep(hunks: seq<Hunk<Text>>, line: Text, rest: seq<Text>, next: seq<Hunk<Text>>)
    requires ParseLine(hunks, line) == Ok(next)
    ensures ParseLines(hunks, [line] + rest) == ParseLines(next, rest)
  {
    assert ([line] + rest)[1..] == rest;
  }

  lemma {:induction false} ParsePrintedBody(done: seq<Hunk<Text>>, h: Hunk<Text>, ls: seq<HunkLine<Text>>, all: seq<HunkLine<Text>>)
    requires all == h.lines + ls
    ensures ParseLines(done + [h], PrintBody(ls)) == Ok(done + [h.(lines := all)])
    decreases |ls|
  {
    if ls == [] {
      assert h.lines + ls == h.lines;
    } else {
      var next := h.(lines := h.lines + [ls[0]]);
      assert all == next.lines + ls[1..];
      ParsePrintedBody(done, next, ls[1..], all);
      ParsePrintedLine(done + [h], ls[0]);
      AddToLast(done, h, ls[0]);
      ParseStep(done + [h], PrintLine(ls[0]), PrintBody(ls[1..]), done + [next]);
    }
  }

  lemma {:induction false} ParsePrintedHunk(done: seq<Hunk<Text>>, h: Hunk<Text>, style: Style)
    ensures ParseLines(done, [PrintHeader(h, style)] + PrintBody(h.lines)) == Ok(done + [h])
  {
    var empty := h.(lines := []);
    ReadPrintedHeader(h, style);
    ParsePrintedBody(done, empty, h.lines, h.lines);
    ParseStep(done, PrintHeader(h, style), PrintBody(h.lines), done + [empty]);
  }

  lemma {:induction false} ParsePrintedHunks(done: seq<Hunk<Text>>, hunks: seq<Hunk<Text>>, style: Style, all: seq<Hunk<Text>>)
    requires all == done + hunks
    ensures ParseLines(done, PrintHunks(hunks, style)) == Ok(all)
    decreases |hunks|
  {
    if hunks == [] {
      assert done + hunks == done;
    } else {
      var next, first := done + [hunks[0]], [PrintHeader(hunks[0], style)] + PrintBody(hunks[0].lines);
      assert all == next + hunks[1..];
      ParsePrintedHunks(next, hunks[1..], style, all);
      ParsePrintedHunk(done, hunks[0], style);
      ParseAppended(done, first, PrintHunks(hunks[1..], style), next);
    }
  }

  /** Reading a printed diff gives the hunks back, in every style. */
  lemma {:induction false} ParseInvertsPrint(hunks: seq<Hunk<Text>>, style: Style)
    requires hunks != [] && SingleLines(PrintHunks(hunks, style)) && !HasCrLf(JoinLines(PrintHunks(hunks, style)))
    ensures Parsed(JoinLines(PrintHunks(hunks, style))) == Ok(hunks)
  {
    NormalizeNothing(JoinLines(PrintHunks(hunks, style)));
    SplitJoin(PrintHunks(hunks, style));
    ParsePrintedHunks([], hunks, style, hunks);
  }
}
