/**
 The keys of an X11 server: the events injected into it, the keys that are down after them, and what
 the calls of the key sequence machine inject.
 */
module Injections {
  import opened Wrappers

  type KeyCode = nat

  type KeySym = nat

  type Bytes = seq<bv8>

  const MAX_MODIFIERS := 16
  const MAX_HELD_KEYS := 128

  // ---------------------------------------------------------------- injected events

  /** What a key event is for: the shift around a shifted symbol, a key that is kept down or let go, or anything else. */
  datatype Role = Plain | Shifting | Keeping

  /** A key event and whether it came through. */
  datatype Injection = Injection(code: KeyCode, press: bool, role: Role, ok: bool)

  function Pressing(code: KeyCode, ok: bool): Injection { Injection(code, true, Plain, ok) }

  function Releasing(code: KeyCode, ok: bool): Injection { Injection(code, false, Plain, ok) }

  /** A key_down, and a key_up. */
  function Keep(code: KeyCode, ok: bool): Injection { Injection(code, true, Keeping, ok) }

  function Drop(code: KeyCode, ok: bool): Injection { Injection(code, false, Keeping, ok) }

  /** What the server was asked, after how many injections, and its answer. */
  datatype Question = Focus | Mapping

  datatype Check = Check(question: Question, at: nat, yes: bool)

  function Applied(down: set<KeyCode>, e: Injection): set<KeyCode> {
    if !e.ok then down else if e.press then down + {e.code} else down - {e.code}
  }

  /** The keys down after the events in `log`. */
  function DownAfter(before: set<KeyCode>, log: seq<Injection>): set<KeyCode> {
    if log == [] then before else Applied(DownAfter(before, log[..|log| - 1]), log[|log| - 1])
  }

  /** Event `i` pressed the key, and nothing that came through has touched it since. */
  ghost predicate PressedAt(log: seq<Injection>, c: KeyCode, i: nat) {
    && i < |log| && log[i].code == c && log[i].press && log[i].ok
    && forall j | i < j < |log| && log[j].code == c :: !log[j].ok
  }

  ghost predicate ReleaseFailed(log: seq<Injection>, c: KeyCode, i: nat) {
    exists j | i < j < |log| :: log[j].code == c && !log[j].press && !log[j].ok
  }

  /** Event `i` pressed shift by itself, and pressing or releasing the key right behind it failed. */
  ghost predicate GivenUp(log: seq<Injection>, i: nat) {
    && i + 1 < |log| && log[i].role.Shifting? && log[i + 1].press
    && (!log[i + 1].ok || (i + 2 < |log| && !log[i + 2].press && log[i + 2].code == log[i + 1].code && !log[i + 2].ok))
  }

  /** Why a key may still be down: its release failed, or it is the automatic shift of a key that failed. */
  ghost predicate Excused(log: seq<Injection>, c: KeyCode, shift: KeyCode) {
    exists i: nat :: PressedAt(log, c, i) && (ReleaseFailed(log, c, i) || (c == shift && GivenUp(log, i)))
  }

  /** Every key that went down and is not in `x` is up again or excused. */
  ghost predicate Accounted(before: set<KeyCode>, log: seq<Injection>, x: set<KeyCode>, shift: KeyCode) {
    forall c | c in DownAfter(before, log) && c !in before && c !in x :: Excused(log, c, shift)
  }

  /** A key that went down was pressed at some event. */
  lemma {:induction false} DownWasPressed(before: set<KeyCode>, log: seq<Injection>, c: KeyCode)
    requires c in DownAfter(before, log) && c !in before
    ensures exists i: nat :: PressedAt(log, c, i)
  {
    if log != [] {
      var front, e := log[..|log| - 1], log[|log| - 1];
      if e.code == c && e.ok {
        assert PressedAt(log, c, |log| - 1);
      } else {
        DownWasPressed(before, front, c);
        var i: nat :| PressedAt(front, c, i);
        assert PressedAt(log, c, i);
      }
    }
  }

  lemma {:induction false} ExcusedStays(log: seq<Injection>, e: Injection, c: KeyCode, shift: KeyCode)
    requires Excused(log, c, shift) && (e.code != c || !e.ok)
    ensures Excused(log + [e], c, shift)
  {
    var more := log + [e];
    var i: nat :| PressedAt(log, c, i) && (ReleaseFailed(log, c, i) || (c == shift && GivenUp(log, i)));
    assert PressedAt(more, c, i);
    if ReleaseFailed(log, c, i) {
      var j :| i < j < |log| && log[j].code == c && !log[j].press && !log[j].ok;
      assert more[j] == log[j];
    }
  }

  lemma {:induction false} AccountedMore(before: set<KeyCode>, log: seq<Injection>, x: set<KeyCode>, y: set<KeyCode>, shift: KeyCode)
    requires Accounted(before, log, x, shift) && x <= y
    ensures Accounted(before, log, y, shift)
  {}

  /** A press that comes through adds its key to those to be accounted for. */
  lemma {:induction false} AccountedPress(before: set<KeyCode>, log: seq<Injection>, x: set<KeyCode>, shift: KeyCode, e: Injection)
    requires Accounted(before, log, x, shift) && e.press
    ensures Accounted(before, log + [e], if e.ok then x + {e.code} else x, shift)
  {
    assert (log + [e])[..|log|] == log;
    forall c | c in DownAfter(before, log + [e]) && c !in before && c !in (if e.ok then x + {e.code} else x)
      ensures Excused(log + [e], c, shift) {
      ExcusedStays(log, e, c, shift);
    }
  }

  /** After its release a key is up, or excused. */
  lemma {:induction false} AccountedRelease(before: set<KeyCode>, log: seq<Injection>, x: set<KeyCode>, shift: KeyCode, e: Injection)
    requires Accounted(before, log, x, shift) && !e.press
    ensures Accounted(before, log + [e], x - {e.code}, shift)
  {
    var more := log + [e];
    assert more[..|log|] == log;
    forall c | c in DownAfter(before, more) && c !in before && c !in x - {e.code} ensures Excused(more, c, shift) {
      if c == e.code {
        DownWasPressed(before, log, c);
        var i: nat :| PressedAt(log, c, i);
        assert PressedAt(more, c, i);
        assert more[|log|] == e;
      } else {
        ExcusedStays(log, e, c, shift);
      }
    }
  }

  /** The events are the releases of these keys, in this order. */
  ghost predicate ReleasesOf(done: seq<Injection>, codes: seq<KeyCode>) {
    |done| == |codes| && forall k | 0 <= k < |done| :: done[k] == Releasing(codes[k], done[k].ok)
  }

  /** The events are the presses of these keys, in this order, and all came through. */
  ghost predicate PressesOf(done: seq<Injection>, codes: seq<KeyCode>) {
    |done| == |codes| && forall k | 0 <= k < |done| :: done[k] == Pressing(codes[k], true)
  }

  predicate AllOk(done: seq<Injection>) {
    forall k | 0 <= k < |done| :: done[k].ok
  }

  lemma {:induction false} AccountedReleases(before: set<KeyCode>, log: seq<Injection>, x: set<KeyCode>, shift: KeyCode,
                                             done: seq<Injection>, codes: seq<KeyCode>)
    requires Accounted(before, log, x, shift) && ReleasesOf(done, codes)
    ensures Accounted(before, log + done, x - Elements(codes), shift)
  {
    if done == [] {
      assert log + done == log && x - Elements(codes) == x;
    } else {
      var n := |done| - 1;
      AccountedReleases(before, log, x, shift, done[..n], codes[..n]);
      AccountedRelease(before, log + done[..n], x - Elements(codes[..n]), shift, done[n]);
      assert log + done == log + done[..n] + [done[n]];
      assert codes == codes[..n] + [codes[n]];
      assert x - Elements(codes) == x - Elements(codes[..n]) - {codes[n]};
    }
  }

  // ---------------------------------------------------------------- keys that are kept down

  function WithoutCode(codes: seq<KeyCode>, code: KeyCode): seq<KeyCode> {
    if codes == [] then [] else (if codes[0] == code then [] else [codes[0]]) + WithoutCode(codes[1..], code)
  }

  /** The keys that are kept down after these events, the oldest first. */
  function Kept(log: seq<Injection>): seq<KeyCode> {
    if log == [] then []
    else
      var front, e := Kept(log[..|log| - 1]), log[|log| - 1];
      if !e.role.Keeping? || !e.ok then front else if e.press then front + [e.code] else WithoutCode(front, e.code)
  }

  /** How many keys were ever kept down. */
  function KeyDowns(log: seq<Injection>): nat {
    if log == [] then 0
    else
      var e := log[|log| - 1];
      KeyDowns(log[..|log| - 1]) + if e.role.Keeping? && e.ok && e.press then 1 else 0
  }

  predicate SameKept(a: seq<Injection>, b: seq<Injection>) {
    Kept(a) == Kept(b) && KeyDowns(a) == KeyDowns(b)
  }

  lemma {:induction false} KeptOneMore(log: seq<Injection>, e: Injection)
    ensures Kept(log + [e])
         == if !e.role.Keeping? || !e.ok then Kept(log) else if e.press then Kept(log) + [e.code] else WithoutCode(Kept(log), e.code)
    ensures KeyDowns(log + [e]) == KeyDowns(log) + if e.role.Keeping? && e.ok && e.press then 1 else 0
  {
    assert (log + [e])[..|log|] == log;
  }

  lemma {:induction false} NothingKept(log: seq<Injection>, done: seq<Injection>)
    requires forall k | 0 <= k < |done| :: !done[k].role.Keeping?
    ensures SameKept(log, log + done)
  {
    if done == [] {
      assert log + done == log;
    } else {
      var n := |done| - 1;
      NothingKept(log, done[..n]);
      KeptOneMore(log + done[..n], done[n]);
      assert log + done == log + done[..n] + [done[n]];
    }
  }

  function Elements(codes: seq<KeyCode>): set<KeyCode> {
    set c | c in codes
  }

  function Backwards(codes: seq<KeyCode>): (r: seq<KeyCode>)
    ensures |r| == |codes|
  {
    if codes == [] then [] else Backwards(codes[1..]) + [codes[0]]
  }

  lemma {:induction false} BackwardsElements(codes: seq<KeyCode>)
    ensures Elements(Backwards(codes)) == Elements(codes)
  {
    if codes != [] {
      BackwardsElements(codes[1..]);
      assert Elements(codes) == Elements(codes[1..]) + {codes[0]} by { assert codes == [codes[0]] + codes[1..]; }
      assert Elements(Backwards(codes)) == Elements(Backwards(codes[1..])) + {codes[0]};
    }
  }

  // ---------------------------------------------------------------- the keyboard

  datatype Modifier = Fn | Name(id: nat)

  datatype Mode = Tap | Down | Up

  /**
   The keyboard: the keycode of a symbol or 0, and whether the symbol needs shift; the keycodes
   of the modifiers; how names and modifier lists are read; and a key that can be remapped.
   */
  datatype Layout = Layout(
    code: KeySym -> KeyCode, shifted: KeySym -> bool, modifier: nat -> KeyCode, shift: KeyCode, scratch: KeyCode,
    named: (Bytes, Bytes) -> KeySym, modifiers: Bytes -> seq<Modifier>)

  /** The keycodes of a modifier list, or None when one of them is not available or there are too many. */
  function ModifierCodes(mods: seq<Modifier>, layout: Layout): Option<seq<KeyCode>> {
    if mods == [] then Some([])
    else
      var front := ModifierCodes(mods[..|mods| - 1], layout);
      var last := mods[|mods| - 1];
      if front.None? || |mods| > MAX_MODIFIERS || last.Fn? || layout.modifier(last.id) == 0 then None
      else Some(front.value + [layout.modifier(last.id)])
  }

  lemma {:induction false} ModifierCodesPrefix(mods: seq<Modifier>, layout: Layout, n: nat)
    requires n <= |mods| && ModifierCodes(mods[..n], layout).None?
    ensures ModifierCodes(mods, layout).None?
    decreases |mods| - n
  {
    if n < |mods| {
      assert mods[..n + 1][..n] == mods[..n];
      ModifierCodesPrefix(mods, layout, n + 1);
    } else {
      assert mods[..n] == mods;
    }
  }
  // ---------------------------------------------------------------- what the calls inject

  function AutoShift(shift: KeyCode, ok: bool): Injection { Injection(shift, true, Shifting, ok) }

  /** The key goes down and up, as far as that works. */
  ghost predicate TapOf(done: seq<Injection>, code: KeyCode, ok: bool) {
    done == [Pressing(code, true), Releasing(code, ok)] || (done == [Pressing(code, false)] && !ok)
  }

  /** Shift goes down, the key is tapped, and shift goes up unless the tap failed. */
  ghost predicate ShiftedTapOf(done: seq<Injection>, shift: KeyCode, code: KeyCode, ok: bool) {
    || (done == [AutoShift(shift, false)] && !ok)
    || (done != [] && done[0] == AutoShift(shift, true) && TapOf(done[1..], code, false) && !ok)
    || (|done| == 4 && done[0] == AutoShift(shift, true) && TapOf(done[1..3], code, true) && done[3] == Releasing(shift, ok))
  }

  /** Some presses, one that failed, and the releases of those before it. */
  ghost predicate PressesTakenBack(done: seq<Injection>, codes: seq<KeyCode>) {
    exists n | 0 <= n < |codes| :: TakenBackAt(done, codes, n)
  }

  ghost predicate TakenBackAt(done: seq<Injection>, codes: seq<KeyCode>, n: nat)
    requires n < |codes|
  {
    && |done| > n && PressesOf(done[..n], codes[..n]) && done[n] == Pressing(codes[n], false)
    && ReleasesOf(done[n + 1..], Backwards(codes[..n]))
  }

  lemma {:induction false} TakenBack(presses: seq<Injection>, back: seq<Injection>, codes: seq<KeyCode>, n: nat)
    requires n < |codes| && PressesOf(presses, codes[..n]) && ReleasesOf(back, Backwards(codes[..n]))
    ensures PressesTakenBack(presses + [Pressing(codes[n], false)] + back, codes)
  {
    var done := presses + [Pressing(codes[n], false)] + back;
    assert done[..n] == presses && done[n] == Pressing(codes[n], false) && done[n + 1..] == back;
    assert TakenBackAt(done, codes, n);
  }

  lemma {:induction false} OneMoreOk(done: seq<Injection>, e: Injection)
    ensures AllOk(done + [e]) <==> AllOk(done) && e.ok
  {
    var more := done + [e];
    assert more[|done|] == e;
    if AllOk(more) {
      forall k | 0 <= k < |done| ensures done[k].ok { assert more[k] == done[k]; }
    }
  }

  /** Shift is left to its excuse when the key behind it has failed. */
  lemma {:induction false} ShiftGivenUp(before: set<KeyCode>, log: seq<Injection>, tap: seq<Injection>, x: set<KeyCode>, shift: KeyCode,
                                        code: KeyCode)
    requires TapOf(tap, code, false)
    requires Accounted(before, log + ([AutoShift(shift, true)] + tap), x + {shift}, shift)
    ensures Accounted(before, log + ([AutoShift(shift, true)] + tap), x, shift)
  {
    var all := log + ([AutoShift(shift, true)] + tap);
    var n := |log|;
    assert all[n] == AutoShift(shift, true) && all[n + 1] == tap[0];
    assert |tap| == 2 ==> all[n + 2] == tap[1];
    assert |all| == n + 1 + |tap|;
    if code == shift && |tap| == 2 {
      assert PressedAt(all, shift, n + 1);
      assert ReleaseFailed(all, shift, n + 1);
    } else {
      assert PressedAt(all, shift, n) && GivenUp(all, n);
    }
    assert Excused(all, shift, shift);
  }

  lemma {:induction false} NothingExcused(log: seq<Injection>, shift: KeyCode)
    requires AllOk(log)
    ensures forall c :: !Excused(log, c, shift)
  {
    forall c, i: nat | PressedAt(log, c, i) ensures !ReleaseFailed(log, c, i) && !GivenUp(log, i) {}
  }

  /**
   Exactly when a shifted symbol leaves shift down: shift went down, and one of the injections
   behind it failed.
   */
  lemma {:induction false} ShiftLeftDown(before: set<KeyCode>, done: seq<Injection>, shift: KeyCode, code: KeyCode, ok: bool)
    requires ShiftedTapOf(done, shift, code, ok) && code != shift && shift !in before
    ensures shift in DownAfter(before, done) <==> done[0].ok && !AllOk(done[1..])
  {
    var rest := done[1..];
    assert |done| > 1 ==> done[1] == rest[0] && done[1].code == code;
    assert |done| > 2 ==> done[2] == rest[1];
    assert |done| > 3 ==> done[3] == rest[2] && done[1..3] == [done[1], done[2]];
    FirstEvents(before, done);
  }

  /** Up to four events, one after the other. */
  lemma {:induction false} FirstEvents(before: set<KeyCode>, done: seq<Injection>)
    ensures |done| == 1 ==> DownAfter(before, done) == Applied(before, done[0])
    ensures |done| == 2 ==> DownAfter(before, done) == Applied(Applied(before, done[0]), done[1])
    ensures |done| == 3 ==> DownAfter(before, done) == Applied(Applied(Applied(before, done[0]), done[1]), done[2])
    ensures |done| == 4 ==>
              DownAfter(before, done) == Applied(Applied(Applied(Applied(before, done[0]), done[1]), done[2]), done[3])
  {
    if 1 < |done| <= 4 {
      FirstEvents(before, done[..|done| - 1]);
    } else if |done| == 1 {
      assert done[..0] == [];
    }
  }
}
