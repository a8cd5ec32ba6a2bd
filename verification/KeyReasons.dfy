/**
 Why the run of a plan ends: every way in which it can stop short has a cause in what the server
 answered, in the injections, or in the plan itself.
 */
module KeyReasons {
  import opened Injections
  import opened KeyPlans
  import opened Sequences
  import opened Utf8
  import opened Wrappers

  // ---------------------------------------------------------------- causes

  predicate AllYes(asked: seq<Check>) {
    forall k | 0 <= k < |asked| :: asked[k].yes
  }

  /** Nothing was asked or injected behind the answer no. */
  ghost predicate StopsAtNo(p: Part, at: nat) {
    forall k | 0 <= k < |p.asked| && !p.asked[k].yes ::
      && k == |p.asked| - 1 && p.asked[k].at == at
      && p.outcome == if p.asked[k].question.Focus? then Unfocused else Uninspected
  }

  ghost predicate EndsWith(asked: seq<Check>, c: Check) {
    asked != [] && asked[|asked| - 1] == c
  }

  /** The part of a cause that shows in the injections and in the server's answers. */
  ghost predicate Observed(p: Part, log: seq<Injection>) {
    var at := |log + p.events|;
    && StopsAtNo(p, at)
    && (p.outcome.Done? ==> AllOk(p.events) && AllYes(p.asked))
    && (p.outcome.Failed? ==> !AllOk(p.events))
    && (p.outcome.Unfocused? ==> EndsWith(p.asked, Check(Focus, at, false)))
    && (p.outcome.Uninspected? ==> EndsWith(p.asked, Check(Mapping, at, false)))
  }

  /** A key_down without room or of a key that is kept down, or a key_up of a key that is not. */
  ghost predicate OutOfTrack(f: Fields, layout: Layout, log: seq<Injection>) {
    && WellFormed(f)
    && var code := layout.code(SymbolOf(f, layout));
       || (f.kind.KeyDown? && (code in Kept(log) || KeyDowns(log) >= MAX_HELD_KEYS))
       || (f.kind.KeyUp? && code !in Kept(log))
  }

  /** A line that cannot be carried out, whatever happens. */
  ghost predicate Faulty(f: Fields, layout: Layout) {
    || !WellFormed(f)
    || if f.kind.TextEvent? then TextOf(f) == [] || !Encodes(TextOf(f))
       else
         || f.kind.UnknownKind? || SymbolOf(f, layout) == 0 || layout.code(SymbolOf(f, layout)) == 0
         || ModifierCodes(ModifiersOf(f, layout), layout).None?
  }

  /** The part of a cause that shows in the line. */
  ghost predicate Explained(p: Part, f: Fields, layout: Layout, log: seq<Injection>) {
    && (p.outcome.Untracked? ==> OutOfTrack(f, layout, log + p.events))
    && (p.outcome.Refused? ==> Faulty(f, layout))
    && !p.outcome.TooMany?
  }

  // ---------------------------------------------------------------- steps in turn

  lemma {:induction false} DoneParts(parts: seq<Part>, log: seq<Injection>)
    requires AllDone(parts) && forall k | 0 <= k < |parts| :: Observed(parts[k], log + Sent(parts[..k]))
    ensures AllOk(Sent(parts)) && AllYes(Asked(parts))
  {
    if parts != [] {
      var n := |parts| - 1;
      forall k | 0 <= k < n ensures Observed(parts[..n][k], log + Sent(parts[..n][..k])) {
        assert parts[..n][..k] == parts[..k];
      }
      DoneParts(parts[..n], log);
      assert Observed(parts[n], log + Sent(parts[..n]));
    }
  }

  /** How steps in turn may end: with their last one, or with one more look at the focus. */
  ghost predicate EndsIn(parts: seq<Part>, end: seq<Check>, at: nat, outcome: Outcome) {
    if !AllDone(parts) then end == [] && outcome == Last(parts)
    else
      || (end == [] && (outcome.Done? || outcome.Cancelled? || outcome.TooMany?))
      || (end == [Check(Focus, at, false)] && outcome.Unfocused?)
      || (end == [Check(Focus, at, true)] && outcome.Refused?)
  }

  lemma {:induction false} BrokenPart(front: seq<Injection>, asked: seq<Check>, last: Part, log: seq<Injection>)
    requires AllOk(front) && AllYes(asked) && Observed(last, log + front)
    ensures Observed(Part(front + last.events, asked + last.asked, last.outcome), log)
  {
    Regroup(log, front, last.events);
    var events := front + last.events;
    if last.outcome.Failed? {
      var k :| 0 <= k < |last.events| && !last.events[k].ok;
      assert events[|front| + k] == last.events[k];
    }
  }

  lemma {:induction false} DoneThenEnd(events: seq<Injection>, asked: seq<Check>, end: seq<Check>, outcome: Outcome, log: seq<Injection>)
    requires AllOk(events) && AllYes(asked)
    requires || (end == [] && (outcome.Done? || outcome.Cancelled? || outcome.TooMany?))
             || (end == [Check(Focus, |log + events|, false)] && outcome.Unfocused?)
             || (end == [Check(Focus, |log + events|, true)] && outcome.Refused?)
    ensures Observed(Part(events, asked + end, outcome), log)
  {}

  /** What steps in turn have shown. */
  lemma {:induction false} PartsObserved(parts: seq<Part>, end: seq<Check>, outcome: Outcome, log: seq<Injection>)
    requires InTurn(parts) && EndsIn(parts, end, |log + Sent(parts)|, outcome)
    requires forall k | 0 <= k < |parts| :: Observed(parts[k], log + Sent(parts[..k]))
    ensures Observed(Part(Sent(parts), Asked(parts) + end, outcome), log)
  {
    if AllDone(parts) {
      DoneParts(parts, log);
      DoneThenEnd(Sent(parts), Asked(parts), end, outcome, log);
    } else {
      var n := |parts| - 1;
      forall k | 0 <= k < n ensures Observed(parts[..n][k], log + Sent(parts[..n][..k])) {
        assert parts[..n][..k] == parts[..k];
      }
      DoneParts(parts[..n], log);
      assert Observed(parts[n], log + Sent(parts[..n]));
      BrokenPart(Sent(parts[..n]), Asked(parts[..n]), parts[n], log);
      assert Asked(parts) + end == Asked(parts);
    }
  }

  /** Steps of one line in turn: the line explains the whole as it explains the last step. */
  lemma {:induction false} PartsExplained(parts: seq<Part>, asked: seq<Check>, outcome: Outcome, f: Fields, layout: Layout,
                                          log: seq<Injection>)
    requires InTurn(parts) && forall k | 0 <= k < |parts| :: Explained(parts[k], f, layout, log + Sent(parts[..k]))
    requires if !AllDone(parts) then outcome == Last(parts)
             else !outcome.Untracked? && !outcome.TooMany? && (outcome.Refused? ==> Faulty(f, layout))
    ensures Explained(Part(Sent(parts), asked, outcome), f, layout, log)
  {
    if !AllDone(parts) {
      var n := |parts| - 1;
      assert Explained(parts[n], f, layout, log + Sent(parts[..n]));
      Regroup(log, Sent(parts[..n]), parts[n].events);
    }
  }

  // ---------------------------------------------------------------- one key

  lemma {:induction false} TapFails(done: seq<Injection>, code: KeyCode, ok: bool)
    requires TapOf(done, code, ok)
    ensures AllOk(done) <==> ok
  {
    if !ok { assert !done[|done| - 1].ok; }
  }

  lemma {:induction false} ShiftedTapFails(done: seq<Injection>, shift: KeyCode, code: KeyCode, ok: bool)
    requires ShiftedTapOf(done, shift, code, ok)
    ensures AllOk(done) <==> ok
  {
    if !done[0].ok {
    } else if |done| == 4 {
      assert done[1] == done[1..3][0] && done[2] == done[1..3][1];
    } else {
      TapFails(done[1..], code, false);
      var k :| 0 <= k < |done[1..]| && !done[1..][k].ok;
      assert !done[k + 1].ok;
    }
  }

  /** A key event fails exactly when an injection does. */
  lemma {:induction false} KeyFails(done: seq<Injection>, mode: Mode, sym: KeySym, layout: Layout, log: seq<Injection>, outcome: Outcome)
    requires KeyEvents(done, mode, sym, layout, log, outcome)
    ensures outcome in {Done, Failed, Untracked, Refused} && (AllOk(done) <==> !outcome.Failed?)
    ensures outcome.Refused? ==> layout.code(sym) == 0
    ensures outcome.Untracked? ==> done == [] && mode != Tap
    ensures outcome.Untracked? && mode == Down ==> layout.code(sym) in Kept(log) || KeyDowns(log) >= MAX_HELD_KEYS
    ensures outcome.Untracked? && mode == Up ==> layout.code(sym) !in Kept(log)
  {
    if layout.code(sym) != 0 && mode == Tap {
      if layout.shifted(sym) && layout.shift != 0 {
        ShiftedTapFails(done, layout.shift, layout.code(sym), outcome.Done?);
      } else {
        TapFails(done, layout.code(sym), outcome.Done?);
      }
    } else if outcome.Failed? {
      assert !done[0].ok;
    }
  }

  lemma {:induction false} CharacterObserved(p: Part, cp: bv32, layout: Layout, log: seq<Injection>)
    requires GuardedCharacter(p, cp, layout, log)
    ensures Observed(p, log) && p.outcome in {Done, Failed, Uninspected}
  {
    var q := BehindFocus(p);
    assert p.asked == [p.asked[0]] + q.asked;
    if layout.code(KeysymOf(cp)) != 0 {
      KeyFails(p.events, Tap, KeysymOf(cp), layout, log, p.outcome);
    } else if p.outcome.Failed? {
      assert !p.events[if |p.events| == 1 then 0 else 1].ok by { assert |p.events| == 3 ==> p.events[1] == p.events[..2][1]; }
    } else if p.outcome.Uninspected? {
      assert log + p.events == log;
    }
  }

  // ---------------------------------------------------------------- a line

  lemma {:induction false} DecoderStops(cps: seq<bv32>, text: Utf8.Bytes)
    requires AllScalar(cps) && EncodeAll(cps) <= text && EncodeAll(cps) != text && Next(text[|EncodeAll(cps)|..]).None?
    ensures !Encodes(text)
  {
    assert EncodeAll(cps) == text[..|EncodeAll(cps)|];
    EncodesNothing(cps, text, |EncodeAll(cps)|);
  }

  lemma {:induction false} TypedObserved(parts: seq<Part>, cps: seq<bv32>, f: Fields, layout: Layout, log: seq<Injection>)
    requires WellFormed(f) && Typed(parts, cps, TextOf(f), layout, log)
    ensures forall k | 0 <= k < |parts| ::
              Observed(parts[k], log + Sent(parts[..k])) && Explained(parts[k], f, layout, log + Sent(parts[..k]))
  {
    forall k | 0 <= k < |parts|
      ensures Observed(parts[k], log + Sent(parts[..k])) && Explained(parts[k], f, layout, log + Sent(parts[..k])) {
      CharacterObserved(parts[k], cps[k], layout, log + Sent(parts[..k]));
    }
  }

  lemma {:induction false} TextObserved(p: Part, f: Fields, layout: Layout, log: seq<Injection>)
    requires WellFormed(f) && f.kind.TextEvent? && TextSent(p, TextOf(f), layout, log)
    ensures Observed(p, log) && Explained(p, f, layout, log)
  {
    var text := TextOf(f);
    var parts, cps, end :| Typed(parts, cps, text, layout, log) && TextEnds(parts, cps, text, end, |log + Sent(parts)|, p.outcome)
                        && p.events == Sent(parts) && p.asked == Asked(parts) + end;
    TypedObserved(parts, cps, f, layout, log);
    PartsObserved(parts, end, p.outcome, log);
    if AllDone(parts) && p.outcome.Refused? { DecoderStops(cps, text); }
    PartsExplained(parts, p.asked, p.outcome, f, layout, log);
    assert p == Part(Sent(parts), Asked(parts) + end, p.outcome);
  }

  lemma {:induction false} SomeFailed(a: seq<Injection>, b: seq<Injection>, c: seq<Injection>)
    ensures AllOk(a + b + c) <==> AllOk(a) && AllOk(b) && AllOk(c)
  {
    var all := a + b + c;
    if AllOk(all) {
      forall k | 0 <= k < |a| ensures a[k].ok { assert all[k] == a[k]; }
      forall k | 0 <= k < |b| ensures b[k].ok { assert all[|a| + k] == b[k]; }
      forall k | 0 <= k < |c| ensures c[k].ok { assert all[|a| + |b| + k] == c[k]; }
    }
  }

  lemma {:induction false} TakenBackFails(done: seq<Injection>, codes: seq<KeyCode>)
    requires PressesTakenBack(done, codes)
    ensures !AllOk(done)
  {
    var n :| 0 <= n < |codes| && TakenBackAt(done, codes, n);
    assert !done[n].ok;
  }

  /** Presses and releases of modifiers do not touch what is kept down. */
  lemma {:induction false} AroundKeeps(pressed: seq<Injection>, sent: seq<Injection>, released: seq<Injection>, codes: seq<KeyCode>,
                                       log: seq<Injection>)
    requires PressesOf(pressed, codes) && ReleasesOf(released, Backwards(codes)) && sent == []
    ensures SameKept(log + pressed, log + (pressed + sent + released))
  {
    NothingKept(log + pressed, released);
    Regroup(log, pressed, released);
    assert pressed + sent + released == pressed + released;
  }

  lemma {:induction false} ModifiedObserved(p: Part, f: Fields, layout: Layout, log: seq<Injection>)
    requires WellFormed(f) && !f.kind.TextEvent? && SymbolOf(f, layout) != 0 && p.asked == []
    requires ModifiedEvents(p.events, f.kind, SymbolOf(f, layout), ModifiersOf(f, layout), layout, log, p.outcome)
    ensures Observed(p, log) && Explained(p, f, layout, log)
  {
    var sym, codes := SymbolOf(f, layout), ModifierCodes(ModifiersOf(f, layout), layout);
    if codes.Some? {
      if PressesTakenBack(p.events, codes.value) && p.outcome.Failed? {
        TakenBackFails(p.events, codes.value);
      } else {
        var pressed, sent, released, key :|
          && Around(pressed, sent, released, codes.value, f.kind, sym, layout, log, key)
          && p.events == pressed + sent + released && p.outcome == AfterReleases(key, released);
        AroundObserved(p, f, layout, log, pressed, sent, released, codes.value, key);
      }
    }
  }

  lemma {:induction false} AroundObserved(p: Part, f: Fields, layout: Layout, log: seq<Injection>, pressed: seq<Injection>,
                                          sent: seq<Injection>, released: seq<Injection>, codes: seq<KeyCode>, key: Outcome)
    requires WellFormed(f) && !f.kind.TextEvent? && p.asked == []
    requires Around(pressed, sent, released, codes, f.kind, SymbolOf(f, layout), layout, log, key)
    requires p.events == pressed + sent + released && p.outcome == AfterReleases(key, released)
    ensures Observed(p, log) && Explained(p, f, layout, log)
  {
    SomeFailed(pressed, sent, released);
    if !f.kind.UnknownKind? {
      var mode := if f.kind.KeyPress? then Tap else if f.kind.KeyDown? then Down else Up;
      KeyFails(sent, mode, SymbolOf(f, layout), layout, log + pressed, key);
      if key.Untracked? { AroundKeeps(pressed, sent, released, codes, log); }
    }
  }

  lemma {:induction false} RoundObserved(p: Part, f: Fields, layout: Layout, log: seq<Injection>)
    requires WellFormed(f) && Round(p, f, layout, log)
    ensures Observed(p, log) && Explained(p, f, layout, log)
  {
    var q := BehindFocus(p);
    assert p.asked == [p.asked[0]] + q.asked;
    if f.kind.TextEvent? && TextOf(f) != [] {
      TextObserved(q, f, layout, log);
    } else if !f.kind.TextEvent? && SymbolOf(f, layout) != 0 {
      ModifiedObserved(q, f, layout, log);
    }
  }

  lemma {:induction false} LineObserved(p: Part, f: Fields, layout: Layout, log: seq<Injection>)
    requires LineSent(p, f, layout, log)
    ensures Observed(p, log) && Explained(p, f, layout, log)
  {
    if WellFormed(f) {
      var rounds, end :| Repeated(rounds, f, layout, log) && LineEnds(rounds, f.times.value, end, |log + Sent(rounds)|, p.outcome)
                      && p.events == Sent(rounds) && p.asked == Asked(rounds) + end;
      forall k | 0 <= k < |rounds|
        ensures Observed(rounds[k], log + Sent(rounds[..k])) && Explained(rounds[k], f, layout, log + Sent(rounds[..k])) {
        RoundObserved(rounds[k], f, layout, log + Sent(rounds[..k]));
      }
      PartsObserved(rounds, end, p.outcome, log);
      PartsExplained(rounds, p.asked, p.outcome, f, layout, log);
      assert p == Part(Sent(rounds), Asked(rounds) + end, p.outcome);
    }
  }

  // ---------------------------------------------------------------- a plan

  /** Which lines of the plan can be the cause. */
  ghost predicate PlanExplains(p: Part, plan: seq<Line>, layout: Layout) {
    && (p.outcome.Untracked? ==> exists f | Event(f) in plan :: OutOfTrack(f, layout, p.events))
    && (p.outcome.Refused? ==> WrongFieldCount in plan || exists f | Event(f) in plan :: Faulty(f, layout))
    && (p.outcome.TooMany? ==> Counted(plan) > MAX_EVENTS)
  }

  lemma {:induction false} CountedGrows(plan: seq<Line>, n: nat)
    requires n <= |plan|
    ensures Counted(plan[..n]) <= Counted(plan)
    decreases |plan|
  {
    if n < |plan| {
      CountedGrows(plan[..|plan| - 1], n);
      assert plan[..|plan| - 1][..n] == plan[..n];
    } else {
      assert plan[..n] == plan;
    }
  }

  lemma {:induction false} PartPerformed(p: Part, line: Line, layout: Layout, log: seq<Injection>)
    requires Performed(p, line, layout, log)
    ensures Observed(p, log) && !p.outcome.TooMany?
    ensures p.outcome.Untracked? ==> line.Event? && OutOfTrack(line.fields, layout, log + p.events)
    ensures p.outcome.Refused? ==> line.WrongFieldCount? || (line.Event? && Faulty(line.fields, layout))
  {
    if line.Event? { LineObserved(p, line.fields, layout, log); }
  }

  /**
   Why a plan ended. A run that was carried out to its end had only injections that came off, and
   found the focus kept whenever it looked. Any other run was cancelled or has a cause on record:
   a failed injection, a lost focus, or a mapping that could not be read, each of them the last
   thing it met; a line that is malformed or out of track; or too many lines.
   */
  lemma {:induction false} StopsForAReason(p: Part, plan: seq<Line>, layout: Layout)
    requires PlanSent(p, plan, layout)
    ensures Observed(p, []) && PlanExplains(p, plan, layout)
  {
    var parts :| AllPerformed(parts, plan, layout) && PlanEnds(parts, plan, p.outcome)
              && p.events == Sent(parts) && p.asked == Asked(parts);
    forall k | 0 <= k < |parts| ensures Observed(parts[k], [] + Sent(parts[..k])) {
      PartPerformed(parts[k], plan[k], layout, Sent(parts[..k]));
      assert [] + Sent(parts[..k]) == Sent(parts[..k]);
    }
    PartsObserved(parts, [], p.outcome, []);
    assert p == Part(Sent(parts), Asked(parts) + [], p.outcome);
    if AllDone(parts) {
      StoppedBetween(p, plan, layout, |parts|);
    } else {
      StoppedAtLine(parts, plan, layout, |parts| - 1, p);
    }
  }

  lemma {:induction false} StoppedAtLine(parts: seq<Part>, plan: seq<Line>, layout: Layout, n: nat, p: Part)
    requires AllPerformed(parts, plan, layout) && |parts| == n + 1 && p.outcome == parts[n].outcome && p.events == Sent(parts)
    ensures PlanExplains(p, plan, layout)
  {
    var line := plan[n];
    PartPerformed(parts[n], line, layout, Sent(parts[..n]));
    assert line in plan && (line.Event? ==> line == Event(line.fields));
  }

  lemma {:induction false} TooManyLines(plan: seq<Line>, n: nat)
    requires n < |plan| && !plan[n].Blank? && Counted(plan[..n]) == MAX_EVENTS
    ensures Counted(plan) > MAX_EVENTS
  {
    assert plan[..n + 1][..n] == plan[..n];
    CountedGrows(plan, n + 1);
  }

  lemma {:induction false} StoppedBetween(p: Part, plan: seq<Line>, layout: Layout, n: nat)
    requires p.outcome.Done? || p.outcome.Cancelled?
          || (p.outcome.TooMany? && n < |plan| && !plan[n].Blank? && Counted(plan[..n]) == MAX_EVENTS)
    ensures PlanExplains(p, plan, layout)
  {
    if p.outcome.TooMany? { TooManyLines(plan, n); }
  }

  lemma {:induction false} PlanReasons(parts: seq<Part>, plan: seq<Line>, layout: Layout, outcome: Outcome) returns (p: Part)
    requires AllPerformed(parts, plan, layout) && PlanEnds(parts, plan, outcome)
    ensures p == Part(Sent(parts), Asked(parts), outcome) && PlanSent(p, plan, layout)
    ensures Observed(p, []) && PlanExplains(p, plan, layout)
  {
    p := PlanIsSent(parts, plan, layout, outcome);
    StopsForAReason(p, plan, layout);
  }

  /** With no cause to stop nothing is missing. */
  lemma {:induction false} NothingMissing(p: Part, plan: seq<Line>, layout: Layout)
    requires PlanSent(p, plan, layout) && !p.outcome.Cancelled? && !p.outcome.Untracked?
    requires AllOk(p.events) && AllYes(p.asked) && Counted(plan) <= MAX_EVENTS && WrongFieldCount !in plan
    requires forall f | Event(f) in plan :: !Faulty(f, layout)
    ensures p.outcome.Done?
  {
    StopsForAReason(p, plan, layout);
  }

  // ---------------------------------------------------------------- shift left down

  /** A line that taps one shifted symbol once, without modifiers. */
  ghost predicate TapsShifted(f: Fields, layout: Layout) {
    && WellFormed(f) && f.kind.KeyPress? && f.times == Some(1) && ModifiersOf(f, layout) == []
    && SymbolOf(f, layout) != 0 && layout.shifted(SymbolOf(f, layout))
    && layout.shift != 0 && layout.code(SymbolOf(f, layout)) !in {0, layout.shift}
  }

  lemma {:induction false} OnePart(parts: seq<Part>)
    requires |parts| == 1
    ensures Sent(parts) == parts[0].events && Asked(parts) == parts[0].asked && parts[..0] == []
  {
    assert parts[..0] == [];
  }

  lemma {:induction false} Unmodified(done: seq<Injection>, kind: Kind, sym: KeySym, layout: Layout, log: seq<Injection>, outcome: Outcome)
    requires ModifiedEvents(done, kind, sym, [], layout, log, outcome)
    ensures KindEvents(done, kind, sym, layout, log, outcome)
  {
    var pressed, sent, released, key :| Around(pressed, sent, released, [], kind, sym, layout, log, key)
      && done == pressed + sent + released && outcome == AfterReleases(key, released);
    assert pressed == [] && released == [] && done == sent && log + pressed == log;
  }

  lemma {:induction false} WithoutModifiers(done: seq<Injection>, kind: Kind, sym: KeySym, layout: Layout, log: seq<Injection>,
                                            outcome: Outcome)
    requires KindEvents(done, kind, sym, layout, log, outcome)
    ensures ModifiedEvents(done, kind, sym, [], layout, log, outcome)
  {
    assert log + [] == log && [] + done + [] == done;
    ModifiedByKey(log, [], done, [], [], kind, sym, [], layout, outcome);
  }

  lemma {:induction false} OneRound(p: Part, f: Fields, layout: Layout) returns (round: Part)
    requires WellFormed(f) && f.times == Some(1) && LineSent(p, f, layout, []) && p.events != []
    ensures Round(round, f, layout, []) && round.events == p.events
  {
    var rounds, end :| Repeated(rounds, f, layout, []) && LineEnds(rounds, 1, end, |[] + Sent(rounds)|, p.outcome)
                    && p.events == Sent(rounds) && p.asked == Asked(rounds) + end;
    OnePart(rounds);
    round := rounds[0];
    assert Round(rounds[0], f, layout, [] + Sent(rounds[..0]));
    assert [] + Sent(rounds[..0]) == [];
  }

  lemma {:induction false} OneLine(p: Part, f: Fields, layout: Layout) returns (line: Part)
    requires PlanSent(p, [Event(f)], layout) && p.events != []
    ensures LineSent(line, f, layout, []) && line.events == p.events
  {
    var plan := [Event(f)];
    var parts :| AllPerformed(parts, plan, layout) && PlanEnds(parts, plan, p.outcome)
              && p.events == Sent(parts) && p.asked == Asked(parts);
    OnePart(parts);
    line := parts[0];
    assert Performed(parts[0], plan[0], layout, Sent(parts[..0]));
  }

  lemma {:induction false} OneTap(p: Part, f: Fields, layout: Layout) returns (ok: bool)
    requires TapsShifted(f, layout) && PlanSent(p, [Event(f)], layout) && p.events != []
    ensures ShiftedTapOf(p.events, layout.shift, layout.code(SymbolOf(f, layout)), ok)
  {
    var line := OneLine(p, f, layout);
    var round := OneRound(line, f, layout);
    ok := round.outcome.Done?;
    Unmodified(p.events, KeyPress, SymbolOf(f, layout), layout, [], round.outcome);
  }

  lemma {:induction false} TapKeepsNothing(done: seq<Injection>, shift: KeyCode, code: KeyCode, ok: bool)
    requires ShiftedTapOf(done, shift, code, ok)
    ensures Kept(done) == []
  {
    assert |done| > 1 ==> done[1] == done[1..][0];
    assert |done| > 2 ==> done[2] == done[1..][1];
    assert |done| == 4 ==> done[1] == done[1..3][0] && done[2] == done[1..3][1];
    NothingKept([], done);
    assert [] + done == done;
  }

  /**
   A run of such a line leaves shift down if and only if shift went down and one of the injections
   behind it failed, although every key that is still kept down is released at the end.
   */
  lemma {:induction false} RunLeavesShiftDown(before: set<KeyCode>, p: Part, released: seq<Injection>, f: Fields, layout: Layout)
    requires TapsShifted(f, layout) && layout.shift !in before
    requires PlanSent(p, [Event(f)], layout) && ReleasesOf(released, Backwards(Kept(p.events)))
    ensures layout.shift in DownAfter(before, p.events + released)
       <==> p.events != [] && p.events[0].ok && !AllOk(p.events[1..])
  {
    var shift, code := layout.shift, layout.code(SymbolOf(f, layout));
    if p.events != [] {
      var ok := OneTap(p, f, layout);
      ShiftLeftDown(before, p.events, shift, code, ok);
      TapKeepsNothing(p.events, shift, code, ok);
    }
    assert released == [] && p.events + released == p.events;
  }

  lemma {:induction false} OneRoundSent(round: Part, f: Fields, layout: Layout)
    requires WellFormed(f) && f.times == Some(1) && Round(round, f, layout, [])
    ensures LineSent(round, f, layout, [])
  {
    OnePart([round]);
    assert [] + Sent([round][..0]) == [] && [round][..0] == [];
    assert Repeated([round], f, layout, []);
    assert LineEnds([round], 1, [], |[] + Sent([round])|, round.outcome);
    assert Asked([round]) + [] == round.asked;
  }

  lemma {:induction false} OneLineSent(line: Part, plan: seq<Line>, layout: Layout)
    requires |plan| == 1 && Performed(line, plan[0], layout, [])
    ensures PlanSent(line, plan, layout)
  {
    OnePart([line]);
    CountedOneMore(plan, 0);
    assert plan[..0] == [] && Sent([line][..0]) == [];
    assert AllPerformed([line], plan, layout);
  }

  /** There is such a run: shift goes down, and the press of the key fails. */
  lemma {:induction false} ShiftStaysDown(before: set<KeyCode>, f: Fields, layout: Layout) returns (p: Part)
    requires TapsShifted(f, layout)
    ensures PlanSent(p, [Event(f)], layout) && layout.shift in DownAfter(before, p.events)
  {
    var shift, code := layout.shift, layout.code(SymbolOf(f, layout));
    var done := [AutoShift(shift, true), Pressing(code, false)];
    FirstEvents(before, done);
    assert done[1..] == [Pressing(code, false)];
    WithoutModifiers(done, KeyPress, SymbolOf(f, layout), layout, [], Failed);
    p := Focused(0, Part(done, [], Failed));
    OneRoundSent(p, f, layout);
    OneLineSent(p, [Event(f)], layout);
  }
}
