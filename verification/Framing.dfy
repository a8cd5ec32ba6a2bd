/**
 Content-Length framing: an incremental parser whose output does not depend on how the
 stream was cut into chunks, and which inverts the frame encoder. Both implementations run
 the same loop; they differ in how they read a header block.
 */
module Framing {
  import opened CodeUnits
  import opened Decimal
  import opened Wrappers

  type Byte = b: int | 0 <= b < 256

  type Bytes = seq<Byte>

  const CR: Byte := 13
  const LF: Byte := 10
  const MAX_SAFE_INTEGER: nat := 0x1F_FFFF_FFFF_FFFF

  datatype FramingError = InvalidLength | MissingLength | TooLarge

  /** What a header block says about the length of the body. */
  datatype Header = Length(n: nat) | BadHeader(error: FramingError)

  /** A way to read header blocks. */
  type HeaderReader = Bytes -> Header

  predicate BreakAt(b: Bytes, i: nat) {
    i + 4 <= |b| && b[i] == CR && b[i + 1] == LF && b[i + 2] == CR && b[i + 3] == LF
  }

  /** The first blank line from `from` on. */
  function HeaderEnd(b: Bytes, from: nat): (r: Option<nat>)
    ensures r.Some? ==> from <= r.value && BreakAt(b, r.value)
    ensures forall i: nat | from <= i && (r.Some? ==> i < r.value) :: !BreakAt(b, i)
    decreases |b| - from
  {
    if from + 4 > |b| then None
    else if BreakAt(b, from) then Some(from)
    else HeaderEnd(b, from + 1)
  }

  datatype Step = NeedMore | Frame(body: Bytes, consumed: nat) | Fail(error: FramingError)

  /** One turn of the parsing loop, decided by the buffer alone. */
  function NextFrame(b: Bytes, max: nat, header: HeaderReader): (s: Step)
    ensures s.Frame? ==> 4 <= s.consumed <= |b| && |s.body| <= max
  {
    match HeaderEnd(b, 0)
    case None => NeedMore
    case Some(i) =>
      match header(b[..i])
      case BadHeader(e) => Fail(e)
      case Length(n) =>
        if n > max then Fail(TooLarge)
        else if |b| < i + 4 + n then NeedMore
        else Frame(b[i + 4..i + 4 + n], i + 4 + n)
  }

  /** What a push leaves: the messages and the buffer, or an error and the buffer it stopped at. */
  datatype Pushed = Messages(messages: seq<Bytes>, rest: Bytes) | Threw(error: FramingError, rest: Bytes)

  function Before(message: Bytes, p: Pushed): Pushed {
    match p
    case Messages(ms, rest) => Messages([message] + ms, rest)
    case Threw(e, rest) => Threw(e, rest)
  }

  function Drain(b: Bytes, max: nat, header: HeaderReader): Pushed
    decreases |b|
  {
    match NextFrame(b, max, header)
    case NeedMore => Messages([], b)
    case Fail(e) => Threw(e, b)
    case Frame(body, n) => Before(body, Drain(b[n..], max, header))
  }

  // ---------------------------------------------------------------- the parser

  class ContentLengthParser {
    var buffer: Bytes
    const maxMessageBytes: nat
    const header: HeaderReader

    constructor (maxMessageBytes: nat, header: HeaderReader)
      ensures buffer == [] && this.maxMessageBytes == maxMessageBytes && this.header == header
    {
      this.buffer, this.maxMessageBytes, this.header := [], maxMessageBytes, header;
    }

    /** Find a complete frame at the start of the buffer. */
    method TakeFrame() returns (step: Step)
      ensures step == NextFrame(buffer, maxMessageBytes, header)
    {
      var at := HeaderEnd(buffer, 0);
      if at.None? { return NeedMore; }
      var headerEnd := at.value;
      var h := header(buffer[..headerEnd]);
      if h.BadHeader? { return Fail(h.error); }
      if h.n > maxMessageBytes { return Fail(TooLarge); }
      var bodyStart := headerEnd + 4;
      if |buffer| < bodyStart + h.n { return NeedMore; }
      return Frame(buffer[bodyStart..bodyStart + h.n], bodyStart + h.n);
    }

    /** Take in a chunk and hand out the messages that are complete. */
    method Push(chunk: Bytes) returns (r: Pushed)
      modifies this`buffer
      ensures r == Drain(old(buffer) + chunk, maxMessageBytes, header)
      ensures buffer == r.rest
    {
      buffer := buffer + chunk;
      ghost var whole := buffer;
      var output: seq<Bytes> := [];
      while true
        invariant Drain(whole, maxMessageBytes, header) == Prepend(output, Drain(buffer, maxMessageBytes, header))
        decreases |buffer|
      {
        var step := TakeFrame();
        if step.NeedMore? { return Messages(output, buffer); }
        if step.Fail? { return Threw(step.error, buffer); }
        PrependOne(output, step.body, Drain(buffer[step.consumed..], maxMessageBytes, header));
        output, buffer := output + [step.body], buffer[step.consumed..];
      }
    }
  }

  function Prepend(ms: seq<Bytes>, p: Pushed): Pushed {
    match p
    case Messages(more, rest) => Messages(ms + more, rest)
    case Threw(e, rest) => Threw(e, rest)
  }

  lemma {:induction false} PrependOne(ms: seq<Bytes>, m: Bytes, p: Pushed)
    ensures Prepend(ms, Before(m, p)) == Prepend(ms + [m], p)
  {
    if p.Messages? { assert ms + ([m] + p.messages) == (ms + [m]) + p.messages; }
  }

  // ---------------------------------------------------------------- chunk boundaries do not matter

  lemma {:induction false} HeaderEndKept(a: Bytes, b: Bytes)
    requires HeaderEnd(a, 0).Some?
    ensures HeaderEnd(a + b, 0) == HeaderEnd(a, 0)
  {
    var i := HeaderEnd(a, 0).value;
    assert BreakAt(a + b, i);
    forall j: nat | j < i ensures !BreakAt(a + b, j) { assert !BreakAt(a, j); }
  }

  /** A frame or an error found in a prefix is found in the whole. */
  lemma {:induction false} NextFrameKept(a: Bytes, b: Bytes, max: nat, header: HeaderReader)
    requires !NextFrame(a, max, header).NeedMore?
    ensures NextFrame(a + b, max, header) == NextFrame(a, max, header)
  {
    HeaderEndKept(a, b);
    var i := HeaderEnd(a, 0).value;
    assert (a + b)[..i] == a[..i];
    var h := header(a[..i]);
    if h.Length? && i + 4 + h.n <= |a| { assert (a + b)[i + 4..i + 4 + h.n] == a[i + 4..i + 4 + h.n]; }
  }

  /** Reading on after a first part. */
  function Continue(p: Pushed, b: Bytes, max: nat, header: HeaderReader): Pushed {
    match p
    case Messages(ms, rest) => Prepend(ms, Drain(rest + b, max, header))
    case Threw(e, rest) => Threw(e, rest + b)
  }

  /** One push of the whole is a push of the first part followed by a push of the second. */
  lemma {:induction false} DrainInTwo(a: Bytes, b: Bytes, max: nat, header: HeaderReader)
    ensures Drain(a + b, max, header) == Continue(Drain(a, max, header), b, max, header)
    decreases |a|
  {
    var s := NextFrame(a, max, header);
    if s.NeedMore? {
      PrependNothing(Drain(a + b, max, header));
    } else {
      NextFrameKept(a, b, max, header);
      if s.Frame? {
        var rest := a[s.consumed..];
        assert (a + b)[s.consumed..] == rest + b;
        DrainInTwo(rest, b, max, header);
        ContinueBefore(s.body, Drain(rest, max, header), b, max, header);
      }
    }
  }

  lemma {:induction false} PrependNothing(p: Pushed)
    ensures Prepend([], p) == p
  {
    if p.Messages? { assert [] + p.messages == p.messages; }
  }

  lemma {:induction false} ContinueBefore(m: Bytes, p: Pushed, b: Bytes, max: nat, header: HeaderReader)
    ensures Continue(Before(m, p), b, max, header) == Before(m, Continue(p, b, max, header))
  {
    if p.Messages? {
      var q := Drain(p.rest + b, max, header);
      if q.Messages? { assert [m] + (p.messages + q.messages) == ([m] + p.messages) + q.messages; }
    }
  }

  function Concat(chunks: seq<Bytes>): Bytes {
    if chunks == [] then [] else chunks[0] + Concat(chunks[1..])
  }

  /** The chunks pushed one by one; the first error ends the run. */
  function Feed(buffer: Bytes, chunks: seq<Bytes>, max: nat, header: HeaderReader): Pushed
    decreases |chunks|
  {
    if chunks == [] then Messages([], buffer)
    else
      var p := Drain(buffer + chunks[0], max, header);
      match p
      case Threw(e, rest) => Threw(e, rest)
      case Messages(ms, rest) => Prepend(ms, Feed(rest, chunks[1..], max, header))
  }

  /** What is left after a push holds no further frame. */
  lemma {:induction false} RestIsIdle(b: Bytes, max: nat, header: HeaderReader)
    requires Drain(b, max, header).Messages?
    ensures NextFrame(Drain(b, max, header).rest, max, header).NeedMore?
    decreases |b|
  {
    var s := NextFrame(b, max, header);
    if s.Frame? { RestIsIdle(b[s.consumed..], max, header); }
  }

  predicate SameOutcome(p: Pushed, q: Pushed) {
    if p.Messages? then p == q else q.Threw? && p.error == q.error
  }

  /**
   However a stream is cut, feeding the pieces gives what one push of the whole gives: the
   same messages and buffer, or the same error.
   */
  lemma {:induction false} ChunkingIrrelevant(buffer: Bytes, chunks: seq<Bytes>, max: nat, header: HeaderReader)
    requires NextFrame(buffer, max, header).NeedMore?
    ensures SameOutcome(Feed(buffer, chunks, max, header), Drain(buffer + Concat(chunks), max, header))
    decreases |chunks|
  {
    if chunks == [] {
      assert buffer + Concat(chunks) == buffer;
    } else {
      var first, others := buffer + chunks[0], Concat(chunks[1..]);
      assert buffer + Concat(chunks) == first + others;
      DrainInTwo(first, others, max, header);
      var p := Drain(first, max, header);
      if p.Messages? {
        RestIsIdle(first, max, header);
        ChunkingIrrelevant(p.rest, chunks[1..], max, header);
      }
    }
  }

  // ---------------------------------------------------------------- reading a header block

  function AsciiText(b: Bytes): (t: Text)
    ensures |t| == |b| && forall i | 0 <= i < |b| :: t[i] == b[i] % 128
  {
    seq(|b|, i requires 0 <= i < |b| => b[i] % 128)
  }

  predicate NewlineAt(t: Text, i: nat) {
    i + 2 <= |t| && t[i] == CR && t[i + 1] == LF
  }

  /** The first line break from `from` on, or the end. */
  function LineEnd(t: Text, from: nat): (r: nat)
    requires from <= |t|
    ensures from <= r <= |t| && (r < |t| ==> NewlineAt(t, r))
    ensures forall i | from <= i < r :: !NewlineAt(t, i)
    decreases |t| - from
  {
    if from == |t| || NewlineAt(t, from) then from else LineEnd(t, from + 1)
  }

  function Lines(t: Text): (ls: seq<Text>)
    ensures ls != []
    decreases |t|
  {
    var i := LineEnd(t, 0);
    if i == |t| then [t] else [t[..i]] + Lines(t[i + 2..])
  }

  function TrimStart(t: Text): Text {
    if t != [] && IsSpace(t[0]) then TrimStart(t[1..]) else t
  }

  function TrimEnd(t: Text): Text {
    if t != [] && IsSpace(t[|t| - 1]) then TrimEnd(t[..|t| - 1]) else t
  }

  function Trim(t: Text): Text { TrimEnd(TrimStart(t)) }

  function Lower(t: Text): (r: Text)
    ensures |r| == |t| && forall i | 0 <= i < |t| :: r[i] == if 0x41 <= t[i] <= 0x5A then t[i] + 32 else t[i]
  {
    seq(|t|, i requires 0 <= i < |t| => if 0x41 <= t[i] <= 0x5A then t[i] + 32 else t[i])
  }

  function ColonAt(t: Text): (r: Option<nat>)
    ensures r.Some? ==> r.value < |t| && t[r.value] == COLON
    ensures forall i | 0 <= i < (if r.Some? then r.value else |t|) :: t[i] != COLON
  {
    if t == [] then None
    else if t[0] == COLON then Some(0)
    else
      assert forall i | 0 < i < |t| :: t[i] == t[1..][i - 1];
      match ColonAt(t[1..])
      case None => None
      case Some(i) => Some(i + 1)
  }

  function LengthName(): Text { Ascii("content-length") }

  /** The value of a line that is a Content-Length field. */
  function LengthField(line: Text): Option<Text> {
    match ColonAt(line)
    case None => None
    case Some(i) => if Lower(Trim(line[..i])) == LengthName() then Some(Trim(line[i + 1..])) else None
  }

  /**
   `Number` followed by the test for a safe integer that is not negative. Plain digit strings are read
   here; `other` stands for the remaining spellings of the host's number syntax.
   */
  function SafeNumber(t: Text, other: Text -> Option<nat>): Option<nat> {
    if t != [] && AllDigits(t) then (if ValueOf(t) <= MAX_SAFE_INTEGER then Some(ValueOf(t)) else None) else other(t)
  }

  /** TypeScript: the last field wins, but the first one that is not a length ends the parse. */
  function ReadFields(lines: seq<Text>, found: Option<nat>, other: Text -> Option<nat>): Header {
    if lines == [] then (if found.Some? then Length(found.value) else BadHeader(MissingLength))
    else match LengthField(lines[0])
      case None => ReadFields(lines[1..], found, other)
      case Some(value) =>
        match SafeNumber(value, other)
        case None => BadHeader(InvalidLength)
        case Some(n) => ReadFields(lines[1..], Some(n), other)
  }

  function NodeHeader(b: Bytes, other: Text -> Option<nat>): Header {
    ReadFields(Lines(AsciiText(b)), None, other)
  }

  /** Swift's `Int(_:)`: 64 bits; `signed` stands for the spellings with a sign. */
  function SwiftInt(t: Text, signed: Text -> Option<int>): Option<int> {
    if t != [] && AllDigits(t) then (if ValueOf(t) < 0x8000_0000_0000_0000 then Some(ValueOf(t)) else None) else signed(t)
  }

  /** Swift: the last field wins, whatever it is. */
  function LastField(lines: seq<Text>, found: Option<int>, signed: Text -> Option<int>): Header {
    if lines == [] then
      if found.Some? && found.value >= 0 then Length(found.value) else BadHeader(MissingLength)
    else match LengthField(lines[0])
      case None => LastField(lines[1..], found, signed)
      case Some(value) => LastField(lines[1..], SwiftInt(value, signed), signed)
  }

  function SwiftHeader(b: Bytes, signed: Text -> Option<int>): Header {
    if exists i | 0 <= i < |b| :: b[i] >= 128 then BadHeader(InvalidLength)
    else LastField(Lines(AsciiText(b)), None, signed)
  }

  // ---------------------------------------------------------------- the encoder and its inverse

  function LengthLine(n: nat): Text { Ascii("Content-Length") + [COLON, 0x20] + Digits(n) }

  function TypeLine(): Text { Ascii("Content-Type") + [COLON] + Ascii(" application/json") }

  function AsBytes(t: Text): (b: Bytes)
    requires forall i | 0 <= i < |t| :: t[i] < 128
    ensures |b| == |t| && forall i | 0 <= i < |t| :: b[i] == t[i]
  {
    seq(|t|, i requires 0 <= i < |t| => t[i])
  }

  function HeaderText(n: nat): (t: Text)
    ensures forall i | 0 <= i < |t| :: t[i] < 128
  {
    LengthLine(n) + [CR, LF] + TypeLine()
  }

  /** encodeContentLengthFrame, for a body already turned into bytes. */
  function EncodeFrame(body: Bytes): Bytes {
    AsBytes(HeaderText(|body|)) + [CR, LF, CR, LF] + body
  }

  lemma {:induction false} Names()
    ensures CR !in Ascii("Content-Length") && COLON !in Ascii("Content-Length")
    ensures CR !in Ascii("Content-Type") && COLON !in Ascii("Content-Type")
    ensures CR !in Ascii(" application/json")
  {}

  lemma {:induction false} PlainLines(n: nat)
    ensures CR !in LengthLine(n) && CR !in TypeLine()
    ensures TypeLine()[0] != CR
  {
    Names();
  }

  lemma {:induction false} LinesOfTwo(a: Text, b: Text)
    requires CR !in a && CR !in b
    ensures Lines(a + [CR, LF] + b) == [a, b]
  {
    var t := a + [CR, LF] + b;
    assert t[|a|] == CR && t[|a| + 1] == LF;
    forall i | 0 <= i < |a| ensures !NewlineAt(t, i) { assert t[i] == a[i] && a[i] in a; }
    assert NewlineAt(t, |a|);
    assert LineEnd(t, 0) == |a| && t[..|a|] == a && t[|a| + 2..] == b;
    forall i | 0 <= i < |b| ensures !NewlineAt(b, i) { assert b[i] in b; }
    assert LineEnd(b, 0) == |b|;
  }

  /** The blank line after the two header lines is the first one. */
  lemma {:induction false} HeaderEndEncoded(body: Bytes, rest: Bytes)
    ensures HeaderEnd(EncodeFrame(body) + rest, 0) == Some(|HeaderText(|body|)|)
  {
    var a, b := LengthLine(|body|), TypeLine();
    var t := EncodeFrame(body) + rest;
    var h := HeaderText(|body|);
    PlainLines(|body|);
    assert BreakAt(t, |h|);
    forall i: nat | i < |h| ensures !BreakAt(t, i) {
      assert t[i] == h[i];
      if i < |a| { assert h[i] == a[i] && a[i] in a; }
      else if i == |a| { assert t[i + 2] == h[i + 2] == b[0]; }
      else if i == |a| + 1 { assert h[i] == LF; }
      else { assert h[i] == b[i - |a| - 2] && b[i - |a| - 2] in b; }
    }
  }

  lemma {:induction false} LowerLengthName()
    ensures Lower(Ascii("Content-Length")) == LengthName()
  {
    var a, b := Lower(Ascii("Content-Length")), LengthName();
    forall i | 0 <= i < 14 ensures a[i] == b[i] {
      assert i == 0 || i == 1 || i == 2 || i == 3 || i == 4 || i == 5 || i == 6 || i == 7 || i == 8 || i == 9
          || i == 10 || i == 11 || i == 12 || i == 13;
    }
  }

  lemma {:induction false} TrimNothing(t: Text)
    requires t != [] && !IsSpace(t[0]) && !IsSpace(t[|t| - 1])
    ensures Trim(t) == t
  {}

  lemma {:induction false} TrimOneSpace(t: Text)
    requires t != [] && !IsSpace(t[0]) && !IsSpace(t[|t| - 1])
    ensures Trim([0x20] + t) == t
  {
    var padded := [0x20] + t;
    assert padded[1..] == t && IsSpace(padded[0]);
    assert TrimStart(padded) == TrimStart(t) == t;
  }

  lemma {:induction false} ColonBehind(name: Text, value: Text)
    requires COLON !in name
    ensures ColonAt(name + [COLON] + value) == Some(|name|)
  {
    var t := name + [COLON] + value;
    forall i | 0 <= i < |name| ensures t[i] != COLON { assert t[i] == name[i] && name[i] in name; }
    assert t[|name|] == COLON;
    var r := ColonAt(t);
    assert r.Some?;
  }

  lemma {:induction false} LengthLineField(n: nat)
    ensures LengthField(LengthLine(n)) == Some(Digits(n))
  {
    var line, name, digits := LengthLine(n), Ascii("Content-Length"), Digits(n);
    Names();
    ColonBehind(name, [0x20] + digits);
    assert line == name + [COLON] + ([0x20] + digits);
    assert line[..|name|] == name && line[|name| + 1..] == [0x20] + digits;
    TrimNothing(name);
    LowerLengthName();
    assert IsDigit(digits[0]) && IsDigit(digits[|digits| - 1]);
    TrimOneSpace(digits);
  }

  lemma {:induction false} TypeLineField()
    ensures LengthField(TypeLine()) == None
  {
    var name := Ascii("Content-Type");
    Names();
    ColonBehind(name, Ascii(" application/json"));
    assert TypeLine()[..|name|] == name;
    TrimNothing(name);
    assert |Lower(name)| != |LengthName()|;
  }

  /** The header block the encoder writes, read back: the length of the body, in both languages. */
  ghost predicate ReadsEncoded(header: HeaderReader, n: nat) {
    header(AsBytes(HeaderText(n))) == Length(n)
  }

  lemma {:induction false} AsciiRoundTrip(t: Text)
    requires forall i | 0 <= i < |t| :: t[i] < 128
    ensures AsciiText(AsBytes(t)) == t
  {}

  lemma {:induction false} EncodedLines(n: nat)
    ensures Lines(AsciiText(AsBytes(HeaderText(n)))) == [LengthLine(n), TypeLine()]
  {
    AsciiRoundTrip(HeaderText(n));
    PlainLines(n);
    LinesOfTwo(LengthLine(n), TypeLine());
  }

  lemma {:induction false} NodeReadsEncoded(n: nat, other: Text -> Option<nat>)
    requires n <= MAX_SAFE_INTEGER
    ensures ReadsEncoded(b => NodeHeader(b, other), n)
  {
    var ls := [LengthLine(n), TypeLine()];
    EncodedLines(n);
    ValueOfDigits(n);
    LengthLineField(n);
    TypeLineField();
    assert ls[1..] == [TypeLine()];
    assert ReadFields([TypeLine()], Some(n), other) == Length(n);
  }

  lemma {:induction false} SwiftPlain(t: Text, signed: Text -> Option<int>)
    requires forall i | 0 <= i < |t| :: t[i] < 128
    ensures SwiftHeader(AsBytes(t), signed) == LastField(Lines(AsciiText(AsBytes(t))), None, signed)
  {}

  lemma {:induction false} SwiftLines(a: Text, b: Text, value: Text, n: nat, signed: Text -> Option<int>)
    requires LengthField(a) == Some(value) && LengthField(b) == None && SwiftInt(value, signed) == Some(n)
    ensures LastField([a, b], None, signed) == Length(n)
  {
    assert [a, b][1..] == [b];
    assert LastField([b], Some(n), signed) == Length(n);
  }

  lemma {:induction false} SwiftReadsEncoded(n: nat, signed: Text -> Option<int>)
    requires n < 0x8000_0000_0000_0000
    ensures ReadsEncoded(b => SwiftHeader(b, signed), n)
  {
    SwiftPlain(HeaderText(n), signed);
    EncodedLines(n);
    ValueOfDigits(n);
    LengthLineField(n);
    TypeLineField();
    SwiftLines(LengthLine(n), TypeLine(), Digits(n), n, signed);
  }

  function EncodeAll(bodies: seq<Bytes>): Bytes {
    if bodies == [] then [] else EncodeFrame(bodies[0]) + EncodeAll(bodies[1..])
  }

  lemma {:induction false} NextEncoded(body: Bytes, rest: Bytes, max: nat, header: HeaderReader)
    requires |body| <= max && ReadsEncoded(header, |body|)
    ensures NextFrame(EncodeFrame(body) + rest, max, header) == Frame(body, |EncodeFrame(body)|)
  {
    var t, h := EncodeFrame(body) + rest, AsBytes(HeaderText(|body|));
    HeaderEndEncoded(body, rest);
    assert t[..|h|] == h;
    assert t[|h| + 4..|h| + 4 + |body|] == body;
  }

  lemma {:induction false} DrainStep(body: Bytes, rest: Bytes, max: nat, header: HeaderReader, messages: seq<Bytes>)
    requires |body| <= max && ReadsEncoded(header, |body|)
    requires Drain(rest, max, header) == Messages(messages, [])
    ensures Drain(EncodeFrame(body) + rest, max, header) == Messages([body] + messages, [])
  {
    NextEncoded(body, rest, max, header);
    var t := EncodeFrame(body) + rest;
    assert t[|EncodeFrame(body)|..] == rest;
  }

  lemma {:induction false} NothingToDrain(max: nat, header: HeaderReader)
    ensures Drain([], max, header) == Messages([], [])
  {}

  lemma {:induction false} DrainEncoded(bodies: seq<Bytes>, max: nat, header: HeaderReader)
    requires forall body | body in bodies :: |body| <= max && ReadsEncoded(header, |body|)
    ensures Drain(EncodeAll(bodies), max, header) == Messages(bodies, [])
  {
    if bodies == [] {
      NothingToDrain(max, header);
    } else {
      var first, rest := bodies[0], bodies[1..];
      assert bodies == [first] + rest;
      DrainEncoded(rest, max, header);
      DrainStep(first, EncodeAll(rest), max, header, rest);
    }
  }

  /** Any bodies within the limit, framed, cut anywhere and fed in, come out as they went in. */
  lemma {:induction false} FramesSurvive(bodies: seq<Bytes>, chunks: seq<Bytes>, max: nat, header: HeaderReader)
    requires forall body | body in bodies :: |body| <= max && ReadsEncoded(header, |body|)
    requires Concat(chunks) == EncodeAll(bodies)
    ensures Feed([], chunks, max, header) == Messages(bodies, [])
  {
    DrainEncoded(bodies, max, header);
    ChunkingIrrelevant([], chunks, max, header);
    assert [] + Concat(chunks) == Concat(chunks);
  }

  /** The two implementations, on frames of either encoder. */
  lemma {:induction false} FramesSurviveBoth(bodies: seq<Bytes>, chunks: seq<Bytes>, max: nat,
                                             other: Text -> Option<nat>, signed: Text -> Option<int>)
    requires max <= MAX_SAFE_INTEGER && forall body | body in bodies :: |body| <= max
    requires Concat(chunks) == EncodeAll(bodies)
    ensures Feed([], chunks, max, b => NodeHeader(b, other)) == Messages(bodies, [])
    ensures Feed([], chunks, max, b => SwiftHeader(b, signed)) == Messages(bodies, [])
  {
    forall body | body in bodies ensures ReadsEncoded(b => NodeHeader(b, other), |body|) {
      NodeReadsEncoded(|body|, other);
    }
    forall body | body in bodies ensures ReadsEncoded(b => SwiftHeader(b, signed), |body|) {
      SwiftReadsEncoded(|body|, signed);
    }
    FramesSurvive(bodies, chunks, max, b => NodeHeader(b, other));
    FramesSurvive(bodies, chunks, max, b => SwiftHeader(b, signed));
  }
}
