/**
 The events of a key plan: characters of a text, repetitions of a line and lines of a plan are sent
 one after the other, up to the first that fails.
 */
module KeyPlans {
  import opened Base64
  import opened Injections
  import opened Sequences
  import opened Utf8
  import opened Wrappers

  const MAX_EVENTS := 4096

  datatype Kind = TextEvent | KeyPress | KeyDown | KeyUp | UnknownKind

  /** The fields of a line: names, text and modifiers in base64; numbers that may not parse. */
  datatype Fields = Fields(
    kind: Kind, key: Base64.Bytes, code: Base64.Bytes, text: Base64.Bytes, mods: Base64.Bytes, times: Option<int>, delay: Option<int>)

  datatype Line = Blank | WrongFieldCount | Event(fields: Fields)

  predicate InRange(n: Option<int>, low: int, high: int) {
    n.Some? && low <= n.value <= high
  }

  /** The length of a C string: everything before the first zero byte. */
  function StringLength(text: Utf8.Bytes): (n: nat)
    ensures n <= |text| && 0 !in text[..n] && (n < |text| ==> text[n] == 0)
  {
    if text == [] || text[0] == 0 then 0
    else
      var n := 1 + StringLength(text[1..]);
      assert text[..n] == [text[0]] + text[1..][..n - 1];
      n
  }

  /** X11 names control characters by keysyms of their own and other characters by their code points. */
  function KeysymOf(cp: bv32): KeySym {
    if cp == 0x0A then 0xFF0D else if cp == 0x09 then 0xFF09 else if cp <= 0xFF then cp as nat else 0x0100_0000 + cp as nat
  }

  // ---------------------------------------------------------------- steps

  /** How a step ended: carried out to its end, or why not. */
  datatype Outcome =
    | Done
    | Failed         // an injection failed
    | Unfocused      // the window was found to have lost the focus
    | Uninspected    // the mapping of the scratch key could not be read
    | Untracked      // a key_down without room, or of a key that is down already, or a key_up without a key_down
    | Refused        // a malformed line or text, or an unknown symbol, modifier or kind
    | TooMany        // more lines than a plan may have
    | Cancelled

  /** What a step injected and asked, and how it ended. */
  datatype Part = Part(events: seq<Injection>, asked: seq<Check>, outcome: Outcome)

  function Sent(parts: seq<Part>): seq<Injection> {
    if parts == [] then [] else Sent(parts[..|parts| - 1]) + parts[|parts| - 1].events
  }

  function Asked(parts: seq<Part>): seq<Check> {
    if parts == [] then [] else Asked(parts[..|parts| - 1]) + parts[|parts| - 1].asked
  }

  predicate AllDone(parts: seq<Part>) {
    forall k | 0 <= k < |parts| :: parts[k].outcome.Done?
  }

  /** No step follows one that was not carried out to its end. */
  predicate InTurn(parts: seq<Part>) {
    parts == [] || AllDone(parts[..|parts| - 1])
  }

  function Last(parts: seq<Part>): Outcome
    requires parts != []
  {
    parts[|parts| - 1].outcome
  }

  /** The steps ended with one that was not carried out to its end. */
  ghost predicate EndedBy(parts: seq<Part>, outcome: Outcome) {
    parts != [] && Last(parts) == outcome && !outcome.Done?
  }

  /** The step `p` behind a look at the focus that was found kept. */
  ghost predicate Guarded(p: Part, at: nat) {
    p.asked != [] && p.asked[0] == Check(Focus, at, true)
  }

  function Focused(at: nat, p: Part): (r: Part)
    ensures Guarded(r, at) && BehindFocus(r) == p && r.events == p.events && r.outcome == p.outcome
  {
    assert ([Check(Focus, at, true)] + p.asked)[1..] == p.asked;
    p.(asked := [Check(Focus, at, true)] + p.asked)
  }

  function BehindFocus(p: Part): Part
    requires p.asked != []
  {
    p.(asked := p.asked[1..])
  }

  lemma {:induction false} OneMorePart(parts: seq<Part>, p: Part)
    requires AllDone(parts)
    ensures InTurn(parts) && InTurn(parts + [p])
    ensures Sent(parts + [p]) == Sent(parts) + p.events && Asked(parts + [p]) == Asked(parts) + p.asked
    ensures AllDone(parts + [p]) <==> p.outcome.Done?
    ensures forall k | 0 <= k <= |parts| :: (parts + [p])[..k] == parts[..k]
  {
    var more := parts + [p];
    assert more[..|parts|] == parts && more[|parts|] == p;
  }

  // ---------------------------------------------------------------- a key

  /** The events of one symbol, when `log` was injected before. */
  ghost predicate KeyEvents(done: seq<Injection>, mode: Mode, sym: KeySym, layout: Layout, log: seq<Injection>, outcome: Outcome) {
    var code := layout.code(sym);
    if code == 0 then done == [] && outcome.Refused?
    else match mode
      case Tap =>
        && (outcome.Done? || outcome.Failed?)
        && if layout.shifted(sym) && layout.shift != 0 then ShiftedTapOf(done, layout.shift, code, outcome.Done?)
           else TapOf(done, code, outcome.Done?)
      case Down =>
        if code in Kept(log) || KeyDowns(log) >= MAX_HELD_KEYS then done == [] && outcome.Untracked?
        else done == [Keep(code, outcome.Done?)] && (outcome.Done? || outcome.Failed?)
      case Up =>
        if code in Kept(log) then done == [Drop(code, outcome.Done?)] && (outcome.Done? || outcome.Failed?)
        else done == [] && outcome.Untracked?
  }

  ghost predicate KindEvents(done: seq<Injection>, kind: Kind, sym: KeySym, layout: Layout, log: seq<Injection>, outcome: Outcome) {
    match kind
    case KeyPress => KeyEvents(done, Tap, sym, layout, log, outcome)
    case KeyDown => KeyEvents(done, Down, sym, layout, log, outcome)
    case KeyUp => KeyEvents(done, Up, sym, layout, log, outcome)
    case _ => done == [] && outcome.Refused?
  }

  /** The modifiers go down, the key event follows, and the modifiers go up again whatever became of it. */
  ghost predicate Around(pressed: seq<Injection>, sent: seq<Injection>, released: seq<Injection>, codes: seq<KeyCode>,
                         kind: Kind, sym: KeySym, layout: Layout, log: seq<Injection>, key: Outcome) {
    PressesOf(pressed, codes) && ReleasesOf(released, Backwards(codes)) && KindEvents(sent, kind, sym, layout, log + pressed, key)
  }

  function AfterReleases(key: Outcome, released: seq<Injection>): Outcome {
    if key.Done? && !AllOk(released) then Failed else key
  }

  /** The events of a key event with modifiers, which may not be available, or not go down and be taken back. */
  ghost predicate ModifiedEvents(done: seq<Injection>, kind: Kind, sym: KeySym, mods: seq<Modifier>, layout: Layout,
                                 log: seq<Injection>, outcome: Outcome) {
    var codes := ModifierCodes(mods, layout);
    if codes.None? then done == [] && outcome.Refused?
    else
      || (PressesTakenBack(done, codes.value) && outcome.Failed?)
      || exists pressed, sent, released, key | Around(pressed, sent, released, codes.value, kind, sym, layout, log, key) ::
           done == pressed + sent + released && outcome == AfterReleases(key, released)
  }

  // ---------------------------------------------------------------- a text

  /** The scratch key goes down and up, if its mapping can be read; a release that failed is tried once more. */
  ghost predicate Scratched(p: Part, scratch: KeyCode, at: nat) {
    match p.outcome
    case Done => TapOf(p.events, scratch, true) && p.asked == [Check(Mapping, at, true)]
    case Failed =>
      && p.asked == [Check(Mapping, at, true)]
      && (|| p.events == [Pressing(scratch, false)]
          || (|p.events| == 3 && p.events[..2] == [Pressing(scratch, true), Releasing(scratch, false)]
              && p.events[2] == Releasing(scratch, p.events[2].ok)))
    case Uninspected => p.events == [] && p.asked == [Check(Mapping, at, false)]
    case _ => false
  }

  /** A character with a key of its own is tapped; any other goes through the scratch key. */
  ghost predicate Character(p: Part, cp: bv32, layout: Layout, log: seq<Injection>) {
    var sym := KeysymOf(cp);
    if layout.code(sym) != 0 then p.asked == [] && KeyEvents(p.events, Tap, sym, layout, log, p.outcome)
    else Scratched(p, layout.scratch, |log|)
  }

  ghost predicate GuardedCharacter(p: Part, cp: bv32, layout: Layout, log: seq<Injection>) {
    Guarded(p, |log|) && Character(BehindFocus(p), cp, layout, log)
  }

  /** These characters were typed in turn, each with the focus kept, and `text` begins with their encodings. */
  ghost predicate Typed(parts: seq<Part>, cps: seq<bv32>, text: Utf8.Bytes, layout: Layout, log: seq<Injection>) {
    |parts| == |cps| && InTurn(parts) && AllScalar(cps) && EncodeAll(cps) <= text && EachGuarded(parts, cps, layout, log)
  }

  ghost predicate EachGuarded(parts: seq<Part>, cps: seq<bv32>, layout: Layout, log: seq<Injection>)
    requires |parts| == |cps|
  {
    forall k | 0 <= k < |parts| :: GuardedCharacter(parts[k], cps[k], layout, log + Sent(parts[..k]))
  }

  /** Why typing ended, and the last look at the focus if it was that. */
  ghost predicate TextEnds(parts: seq<Part>, cps: seq<bv32>, text: Utf8.Bytes, end: seq<Check>, at: nat, outcome: Outcome)
    requires EncodeAll(cps) <= text
  {
    if !AllDone(parts) then end == [] && outcome == Last(parts)
    else if EncodeAll(cps) == text then end == [] && outcome.Done?
    else StopsIn(text[|EncodeAll(cps)|..], end, at, outcome)
  }

  /** Nothing is typed of the text that is left. */
  ghost predicate StopsIn(rest: Utf8.Bytes, end: seq<Check>, at: nat, outcome: Outcome) {
    || (end == [] && outcome.Cancelled?)
    || (end == [Check(Focus, at, false)] && outcome.Unfocused?)
    || (end == [Check(Focus, at, true)] && outcome.Refused? && Next(rest).None?)
  }

  /** Typing a text, character by character. */
  ghost predicate TextSent(p: Part, text: Utf8.Bytes, layout: Layout, log: seq<Injection>) {
    exists parts, cps, end | Typed(parts, cps, text, layout, log) && TextEnds(parts, cps, text, end, |log + Sent(parts)|, p.outcome) ::
      p.events == Sent(parts) && p.asked == Asked(parts) + end
  }

  // ---------------------------------------------------------------- a line

  predicate WellFormed(f: Fields) {
    && Decoded(f.key).Some? && Decoded(f.code).Some? && Decoded(f.text).Some? && Decoded(f.mods).Some?
    && InRange(f.times, 1, 100) && InRange(f.delay, 0, 10000)
  }

  function SymbolOf(f: Fields, layout: Layout): KeySym
    requires WellFormed(f)
  {
    layout.named(Decoded(f.key).value, Decoded(f.code).value)
  }

  function ModifiersOf(f: Fields, layout: Layout): seq<Modifier>
    requires WellFormed(f)
  {
    layout.modifiers(Decoded(f.mods).value)
  }

  function TextOf(f: Fields): Utf8.Bytes
    requires WellFormed(f)
  {
    var text := Decoded(f.text).value;
    text[..StringLength(text)]
  }

  /** A line, once. An empty text and an unknown symbol are refused. */
  ghost predicate SentOnce(p: Part, f: Fields, layout: Layout, log: seq<Injection>)
    requires WellFormed(f)
  {
    if f.kind.TextEvent? then if TextOf(f) == [] then p == Part([], [], Refused) else TextSent(p, TextOf(f), layout, log)
    else if SymbolOf(f, layout) == 0 then p == Part([], [], Refused)
    else p.asked == [] && ModifiedEvents(p.events, f.kind, SymbolOf(f, layout), ModifiersOf(f, layout), layout, log, p.outcome)
  }

  ghost predicate Round(p: Part, f: Fields, layout: Layout, log: seq<Injection>)
    requires WellFormed(f)
  {
    Guarded(p, |log|) && SentOnce(BehindFocus(p), f, layout, log)
  }

  /** The repetitions of a line in turn, each with the focus kept. */
  ghost predicate Repeated(rounds: seq<Part>, f: Fields, layout: Layout, log: seq<Injection>)
    requires WellFormed(f)
  {
    && |rounds| <= f.times.value && InTurn(rounds)
    && forall k | 0 <= k < |rounds| :: Round(rounds[k], f, layout, log + Sent(rounds[..k]))
  }

  ghost predicate LineEnds(rounds: seq<Part>, times: int, end: seq<Check>, at: nat, outcome: Outcome) {
    if !AllDone(rounds) then end == [] && outcome == Last(rounds)
    else if |rounds| == times then end == [] && outcome.Done?
    else (end == [] && outcome.Cancelled?) || (end == [Check(Focus, at, false)] && outcome.Unfocused?)
  }

  /** A line, as often as it says. A malformed line is refused. */
  ghost predicate LineSent(p: Part, f: Fields, layout: Layout, log: seq<Injection>) {
    if !WellFormed(f) then p == Part([], [], Refused)
    else exists rounds, end | Repeated(rounds, f, layout, log) && LineEnds(rounds, f.times.value, end, |log + Sent(rounds)|, p.outcome) ::
           p.events == Sent(rounds) && p.asked == Asked(rounds) + end
  }

  // ---------------------------------------------------------------- a plan

  function Counted(plan: seq<Line>): nat {
    if plan == [] then 0 else Counted(plan[..|plan| - 1]) + if plan[|plan| - 1].Blank? then 0 else 1
  }

  ghost predicate Performed(p: Part, line: Line, layout: Layout, log: seq<Injection>) {
    match line
    case Blank => p == Part([], [], Done)
    case WrongFieldCount => p == Part([], [], Refused)
    case Event(f) => LineSent(p, f, layout, log)
  }

  /** The first lines of a plan in turn; no more than MAX_EVENTS are performed. */
  ghost predicate AllPerformed(parts: seq<Part>, plan: seq<Line>, layout: Layout) {
    && |parts| <= |plan| && InTurn(parts) && Counted(plan[..|parts|]) <= MAX_EVENTS
    && forall k | 0 <= k < |parts| :: Performed(parts[k], plan[k], layout, Sent(parts[..k]))
  }

  ghost predicate PlanEnds(parts: seq<Part>, plan: seq<Line>, outcome: Outcome) {
    if !AllDone(parts) then outcome == Last(parts)
    else if |parts| >= |plan| then outcome.Done?
    else outcome.Cancelled? || (outcome.TooMany? && !plan[|parts|].Blank? && Counted(plan[..|parts|]) == MAX_EVENTS)
  }

  ghost predicate PlanSent(p: Part, plan: seq<Line>, layout: Layout) {
    exists parts | AllPerformed(parts, plan, layout) && PlanEnds(parts, plan, p.outcome) ::
      p.events == Sent(parts) && p.asked == Asked(parts)
  }

  // ---------------------------------------------------------------- one more step

  lemma {:induction false} OneMoreGuarded(parts: seq<Part>, cps: seq<bv32>, layout: Layout, log: seq<Injection>, cp: bv32, p: Part)
    requires |parts| == |cps| && EachGuarded(parts, cps, layout, log) && GuardedCharacter(p, cp, layout, log + Sent(parts))
    ensures EachGuarded(parts + [p], cps + [cp], layout, log)
  {
    var more, all := parts + [p], cps + [cp];
    assert more[..|parts|] == parts;
    forall k | 0 <= k < |more| ensures GuardedCharacter(more[k], all[k], layout, log + Sent(more[..k])) {
      if k < |parts| { assert more[k] == parts[k] && all[k] == cps[k] && more[..k] == parts[..k]; }
    }
  }

  /** Everything up to the `i`-th byte is typed. */
  ghost predicate TypedTo(parts: seq<Part>, cps: seq<bv32>, text: Utf8.Bytes, layout: Layout, log: seq<Injection>, i: nat) {
    Typed(parts, cps, text, layout, log) && AllDone(parts) && i <= |text| && EncodeAll(cps) == text[..i]
  }

  lemma {:induction false} OneMoreRead(cps: seq<bv32>, text: Utf8.Bytes, i: nat, cp: bv32, n: nat)
    requires AllScalar(cps) && i <= |text| && EncodeAll(cps) == text[..i] && IsFirst(text[i..], cp, n)
    ensures i + n <= |text| && AllScalar(cps + [cp]) && EncodeAll(cps + [cp]) == text[..i + n] && EncodeAll(cps + [cp]) <= text
  {
    Utf8.EncodeOneMore(cps, cp);
    LongerPrefix(text, i, n);
  }

  /** One more character, with everything that was injected and asked before and after it. */
  lemma {:induction false} OneMoreCharacter(parts: seq<Part>, cps: seq<bv32>, text: Utf8.Bytes, layout: Layout, log: seq<Injection>,
                                            asked: seq<Check>, i: nat, cp: bv32, n: nat, p: Part, log': seq<Injection>, asked': seq<Check>)
    returns (more: seq<Part>, all: seq<bv32>)
    requires TypedTo(parts, cps, text, layout, log, i)
    requires IsFirst(text[i..], cp, n) && GuardedCharacter(p, cp, layout, log + Sent(parts))
    requires log' == log + Sent(parts) + p.events && asked' == asked + Asked(parts) + p.asked
    ensures i + n <= |text| && Typed(more, all, text, layout, log) && log' == log + Sent(more) && asked' == asked + Asked(more)
    ensures if p.outcome.Done? then TypedTo(more, all, text, layout, log, i + n)
            else TextEnds(more, all, text, [], |log'|, p.outcome)
  {
    more, all := parts + [p], cps + [cp];
    OneMorePart(parts, p);
    OneMoreGuarded(parts, cps, layout, log, cp, p);
    OneMoreRead(cps, text, i, cp, n);
    StepDone(log, asked, parts, p, log', asked');
  }

  lemma {:induction false} LongerPrefix(text: Utf8.Bytes, i: nat, n: nat)
    requires i <= |text| && n <= |text[i..]|
    ensures text[..i] + text[i..][..n] == text[..i + n]
  {}

  /** Typing stops in front of the `i`-th byte, or at the end. */
  lemma {:induction false} TypingStops(parts: seq<Part>, cps: seq<bv32>, text: Utf8.Bytes, layout: Layout, log: seq<Injection>, i: nat,
                                       end: seq<Check>, at: nat, outcome: Outcome)
    requires TypedTo(parts, cps, text, layout, log, i)
    requires if i < |text| then StopsIn(text[i..], end, at, outcome) else end == [] && outcome.Done?
    ensures Typed(parts, cps, text, layout, log) && TextEnds(parts, cps, text, end, at, outcome)
  {
    assert text[..|text|] == text;
    assert i < |text| ==> |EncodeAll(cps)| == i;
  }

  lemma {:induction false} OneMoreRound(rounds: seq<Part>, f: Fields, layout: Layout, log: seq<Injection>, asked: seq<Check>, p: Part,
                                        log': seq<Injection>, asked': seq<Check>) returns (more: seq<Part>)
    requires WellFormed(f) && Repeated(rounds, f, layout, log) && AllDone(rounds) && |rounds| < f.times.value
    requires Round(p, f, layout, log + Sent(rounds))
    requires log' == log + Sent(rounds) + p.events && asked' == asked + Asked(rounds) + p.asked
    ensures |more| == |rounds| + 1 && Repeated(more, f, layout, log) && log' == log + Sent(more) && asked' == asked + Asked(more)
    ensures if p.outcome.Done? then AllDone(more) else EndedBy(more, p.outcome)
  {
    more := rounds + [p];
    OneMorePart(rounds, p);
    assert rounds[..|rounds|] == rounds;
    forall k | 0 <= k < |more| ensures Round(more[k], f, layout, log + Sent(more[..k])) {
      assert k < |rounds| ==> more[k] == rounds[k];
    }
    StepDone(log, asked, rounds, p, log', asked');
  }

  lemma {:induction false} CountedOneMore(plan: seq<Line>, i: nat)
    requires i < |plan|
    ensures Counted(plan[..i + 1]) == Counted(plan[..i]) + if plan[i].Blank? then 0 else 1
  {
    assert plan[..i + 1][..i] == plan[..i];
  }

  lemma {:induction false} OneMoreLine(parts: seq<Part>, plan: seq<Line>, layout: Layout, p: Part) returns (more: seq<Part>)
    requires AllPerformed(parts, plan, layout) && AllDone(parts) && |parts| < |plan|
    requires Performed(p, plan[|parts|], layout, Sent(parts)) && Counted(plan[..|parts| + 1]) <= MAX_EVENTS
    ensures |more| == |parts| + 1 && AllPerformed(more, plan, layout)
    ensures Sent(more) == Sent(parts) + p.events && Asked(more) == Asked(parts) + p.asked
    ensures if p.outcome.Done? then AllDone(more) else EndedBy(more, p.outcome)
  {
    more := parts + [p];
    OneMorePart(parts, p);
    assert parts[..|parts|] == parts;
    forall k | 0 <= k < |more| ensures Performed(more[k], plan[k], layout, Sent(more[..k])) {
      assert k < |parts| ==> more[k] == parts[k];
    }
  }

  /** One more step, with everything that was injected and asked up to then and after it. */
  lemma {:induction false} StepDone(log: seq<Injection>, asked: seq<Check>, parts: seq<Part>, p: Part,
                                    log': seq<Injection>, asked': seq<Check>)
    requires log' == log + Sent(parts) + p.events && asked' == asked + Asked(parts) + p.asked
    ensures log' == log + Sent(parts + [p]) && asked' == asked + Asked(parts + [p])
  {
    assert (parts + [p])[..|parts|] == parts;
    Regroup(log, Sent(parts), p.events);
    Regroup(asked, Asked(parts), p.asked);
  }

  /** The text as one part, with everything that was injected and asked before and after. */
  lemma {:induction false} TextIsSent(log: seq<Injection>, asked: seq<Check>, parts: seq<Part>, cps: seq<bv32>, text: Utf8.Bytes,
                                      layout: Layout, end: seq<Check>, outcome: Outcome, log': seq<Injection>, asked': seq<Check>)
    returns (p: Part)
    requires Typed(parts, cps, text, layout, log) && TextEnds(parts, cps, text, end, |log + Sent(parts)|, outcome)
    requires log' == log + Sent(parts) && asked' == asked + Asked(parts) + end
    ensures p.outcome == outcome && TextSent(p, text, layout, log) && log' == log + p.events && asked' == asked + p.asked
  {
    p := Part(Sent(parts), Asked(parts) + end, outcome);
    Regroup(asked, Asked(parts), end);
  }

  lemma {:induction false} LineIsSent(log: seq<Injection>, asked: seq<Check>, rounds: seq<Part>, f: Fields, layout: Layout,
                                      end: seq<Check>, outcome: Outcome, log': seq<Injection>, asked': seq<Check>)
    returns (p: Part)
    requires WellFormed(f) && Repeated(rounds, f, layout, log) && LineEnds(rounds, f.times.value, end, |log + Sent(rounds)|, outcome)
    requires log' == log + Sent(rounds) && asked' == asked + Asked(rounds) + end
    ensures p.outcome == outcome && LineSent(p, f, layout, log) && log' == log + p.events && asked' == asked + p.asked
  {
    p := Part(Sent(rounds), Asked(rounds) + end, outcome);
    Regroup(asked, Asked(rounds), end);
  }

  lemma {:induction false} PlanIsSent(parts: seq<Part>, plan: seq<Line>, layout: Layout, outcome: Outcome) returns (p: Part)
    requires AllPerformed(parts, plan, layout) && PlanEnds(parts, plan, outcome)
    ensures p == Part(Sent(parts), Asked(parts), outcome) && PlanSent(p, plan, layout)
  {
    p := Part(Sent(parts), Asked(parts), outcome);
  }

  lemma {:induction false} ModifiedByKey(log: seq<Injection>, pressed: seq<Injection>, sent: seq<Injection>, released: seq<Injection>,
                                         codes: seq<KeyCode>, kind: Kind, sym: KeySym, mods: seq<Modifier>, layout: Layout, key: Outcome)
    requires ModifierCodes(mods, layout) == Some(codes) && PressesOf(pressed, codes) && ReleasesOf(released, Backwards(codes))
    requires KindEvents(sent, kind, sym, layout, log + pressed, key)
    ensures ModifiedEvents(pressed + sent + released, kind, sym, mods, layout, log, AfterReleases(key, released))
    ensures log + (pressed + sent + released) == log + pressed + sent + released
  {
    assert Around(pressed, sent, released, codes, kind, sym, layout, log, key);
  }

  lemma {:induction false} ModifiedNotCancelled(done: seq<Injection>, kind: Kind, sym: KeySym, mods: seq<Modifier>, layout: Layout,
                                                log: seq<Injection>, outcome: Outcome)
    requires ModifiedEvents(done, kind, sym, mods, layout, log, outcome)
    ensures !outcome.Cancelled?
  {}

  // ---------------------------------------------------------------- texts that do not encode

  /** The bytes encode scalar values other than zero. */
  ghost predicate Encodes(text: Utf8.Bytes) {
    exists cps | AllScalar(cps) :: EncodeAll(cps) == text
  }

  lemma {:induction false} EncodeFirst(cps: seq<bv32>)
    requires cps != []
    ensures EncodeAll(cps) == Utf8.Encode(cps[0]) + EncodeAll(cps[1..])
  {
    var tail := cps[1..];
    var all := seq(|cps|, i requires 0 <= i < |cps| => Utf8.Encode(cps[i]));
    var rest := seq(|tail|, i requires 0 <= i < |tail| => Utf8.Encode(tail[i]));
    assert all[1..] == rest;
  }

  /** Encodings are cut apart in one way only. */
  lemma {:induction false} FirstCharacter(a: bv32, b: bv32, x: Utf8.Bytes, y: Utf8.Bytes)
    requires IsScalar(a) && a != 0 && IsScalar(b) && b != 0 && Utf8.Encode(a) + x == Utf8.Encode(b) + y
    ensures a == b && x == y
  {
    AcceptsEveryEncoding(a, x);
    AcceptsEveryEncoding(b, y);
    assert x == (Utf8.Encode(a) + x)[|Utf8.Encode(a)|..] && y == (Utf8.Encode(b) + y)[|Utf8.Encode(b)|..];
  }

  lemma {:induction false} SameCharacter(c: bv32, tail: Utf8.Bytes, rest: Utf8.Bytes, o: bv32, later: Utf8.Bytes)
    requires IsScalar(c) && c != 0 && IsScalar(o) && o != 0 && Utf8.Encode(o) + later == Utf8.Encode(c) + tail + rest
    ensures o == c && later == tail + rest
  {
    Regroup(Utf8.Encode(c), tail, rest);
    FirstCharacter(o, c, later, tail + rest);
  }

  lemma {:induction false} StartsWell(other: seq<bv32>, text: Utf8.Bytes)
    requires AllScalar(other) && EncodeAll(other) == text && text != []
    ensures Next(text).Some?
  {
    if other != [] {
      EncodeFirst(other);
      AcceptsEveryEncoding(other[0], EncodeAll(other[1..]));
    }
  }

  /** Where the decoder stops, the bytes do not go on with the encoding of a character. */
  lemma {:induction false} GoesOn(cps: seq<bv32>, other: seq<bv32>, rest: Utf8.Bytes)
    requires AllScalar(cps) && AllScalar(other) && EncodeAll(other) == EncodeAll(cps) + rest && rest != []
    ensures Next(rest).Some?
    decreases |cps|
  {
    if cps == [] {
      assert EncodeAll(cps) + rest == rest;
      StartsWell(other, rest);
    } else if other != [] {
      EncodeFirst(other);
      EncodeFirst(cps);
      SameCharacter(cps[0], EncodeAll(cps[1..]), rest, other[0], EncodeAll(other[1..]));
      GoesOn(cps[1..], other[1..], rest);
    }
  }

  /** A text at which the decoder stops short encodes nothing. */
  lemma {:induction false} EncodesNothing(cps: seq<bv32>, text: Utf8.Bytes, i: nat)
    requires AllScalar(cps) && i < |text| && EncodeAll(cps) == text[..i] && Next(text[i..]).None?
    ensures !Encodes(text)
  {
    forall other | AllScalar(other) ensures EncodeAll(other) != text {
      if EncodeAll(other) == text {
        assert text == text[..i] + text[i..];
        GoesOn(cps, other, text[i..]);
      }
    }
  }
}
