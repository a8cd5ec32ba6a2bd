/**
 The X11 key sequence machine: which keys are down while a plan of key events runs, and after.
 Every injected event may fail, and the run may be cancelled or lose the focus at any time.
 */
module KeySequence {
  import opened Base64
  import opened Injections
  import opened KeyPlans
  import opened KeyReasons
  import opened Sequences
  import opened Utf8
  import opened Wrappers

  /** The server with everything it was asked and told to inject since the start of a run. */
  class Server {
    ghost var before: set<KeyCode>
    ghost var log: seq<Injection>
    ghost var asked: seq<Check>

    ghost constructor (down: set<KeyCode>)
      ensures before == down && log == [] && asked == []
    {
      before, log, asked := down, [], [];
    }

    ghost function Down(): set<KeyCode>
      reads this
    {
      DownAfter(before, log)
    }

    /** XTestFakeKeyEvent: it works or it does nothing. */
    method FakeKey(code: KeyCode, press: bool, ghost role: Role) returns (ok: bool)
      modifies this`log
      ensures log == old(log) + [Injection(code, press, role, ok)]
    {
      ok := *;
      log := log + [Injection(code, press, role, ok)];
    }

    /** Whether the window has the focus, and whether a mapping can be read. */
    method Ask(question: Question) returns (yes: bool)
      modifies this`asked
      ensures asked == old(asked) + [Check(question, |log|, yes)]
    {
      yes := *;
      asked := asked + [Check(question, |log|, yes)];
    }

    /** A new account: the keys down now are not this run's. */
    ghost method StartRun()
      modifies this
      ensures before == old(Down()) && log == [] && asked == []
    {
      before, log, asked := Down(), [], [];
    }
  }

  // ---------------------------------------------------------------- held keys

  datatype HeldKey = HeldKey(code: KeyCode, pressed: bool)

  /** The codes of the pressed entries. */
  ghost function PressedIn(items: seq<HeldKey>): set<KeyCode> {
    set i | 0 <= i < |items| && items[i].pressed :: items[i].code
  }

  class HeldKeys {
    const items: array<HeldKey>
    var count: nat

    ghost predicate Valid()
      reads this, items
    {
      && items.Length == MAX_HELD_KEYS && count <= MAX_HELD_KEYS
      && forall i, j | 0 <= i < j < count && items[i].pressed && items[j].pressed :: items[i].code != items[j].code
    }

    ghost function Pressed(): set<KeyCode>
      reads this, items
      requires count <= items.Length
    {
      PressedIn(items[..count])
    }

    /** The pressed keys, the oldest first. */
    ghost function Order(): seq<KeyCode>
      reads this, items
      requires count <= items.Length
    {
      Ordered(items[..count])
    }

    constructor ()
      ensures Valid() && Pressed() == {} && Order() == [] && count == 0 && fresh(items)
    {
      items := new HeldKey[MAX_HELD_KEYS](_ => HeldKey(0, false));
      count := 0;
    }

    method Contains(code: KeyCode) returns (found: bool)
      requires Valid()
      ensures found <==> code in Pressed()
    {
      for i := 0 to count
        invariant forall j | 0 <= j < i :: !(items[j].code == code && items[j].pressed)
      {
        if items[i].code == code && items[i].pressed {
          assert items[..count][i].pressed;
          return true;
        }
      }
      return false;
    }

    /** Entries are never used again, so there is room for MAX_HELD_KEYS key downs in a run. */
    method Add(code: KeyCode) returns (ok: bool)
      requires Valid()
      modifies this, items
      ensures Valid()
      ensures ok <==> code !in old(Pressed()) && old(count) < MAX_HELD_KEYS
      ensures Pressed() == if ok then old(Pressed()) + {code} else old(Pressed())
      ensures Order() == if ok then old(Order()) + [code] else old(Order())
      ensures count == if ok then old(count) + 1 else old(count)
    {
      var known := Contains(code);
      if known || count >= MAX_HELD_KEYS { return false; }
      ghost var was := items[..count];
      forall i | 0 <= i < count && items[i].pressed ensures items[i].code != code { assert was[i].code in PressedIn(was); }
      items[count] := HeldKey(code, true);
      count := count + 1;
      assert items[..count] == was + [HeldKey(code, true)];
      PressedAppend(was, HeldKey(code, true));
      OrderedAppend(was, HeldKey(code, true));
      ok := true;
    }

    method Remove(code: KeyCode) returns (ok: bool)
      requires Valid()
      modifies items
      ensures Valid() && (ok <==> code in old(Pressed())) && Pressed() == old(Pressed()) - {code}
      ensures ok ==> Order() == WithoutCode(old(Order()), code)
    {
      ghost var was := items[..count];
      for i := 0 to count
        invariant items[..count] == was
        invariant forall j | 0 <= j < i :: !(items[j].code == code && items[j].pressed)
      {
        if items[i].code == code && items[i].pressed {
          items[i] := HeldKey(code, false);
          PressedWithout(was, items[..count], i);
          OrderedWithout(was, items[..count], i);
          return true;
        }
      }
      assert code !in PressedIn(was);
      return false;
    }

    method AnyPressed() returns (any: bool)
      requires Valid()
      ensures any <==> Pressed() != {}
    {
      for i := 0 to count
        invariant forall j | 0 <= j < i :: !items[j].pressed
      {
        if items[i].pressed {
          assert items[..count][i].code in Pressed();
          return true;
        }
      }
      return false;
    }

    /** Release what is held, the newest first; a failed release is not tried again. */
    method ReleaseAll(server: Server) returns (ghost done: seq<Injection>)
      requires Valid()
      modifies items, server`log
      ensures Valid() && Pressed() == {}
      ensures server.log == old(server.log) + done && ReleasesOf(done, Newest(old(items[..count])))
    {
      var i := count;
      ghost var all := items[..count];
      done := [];
      assert all[count..] == [];
      while i > 0
        invariant 0 <= i <= count && Valid() && (forall j | i <= j < count :: !items[j].pressed)
        invariant items[..i] == all[..i] && |all| == count
        invariant server.log == old(server.log) + done && ReleasesOf(done, Newest(all[i..]))
      {
        i := i - 1;
        assert all[i..][1..] == all[i + 1..] && items[i] == all[..i + 1][i];
        var code := items[i].code;
        if items[i].pressed {
          var ok := server.FakeKey(code, false, Plain);
          done := done + [Releasing(code, ok)];
        }
        items[i] := HeldKey(code, false);
        assert items[..i] == all[..i];
      }
      assert all[0..] == all;
    }
  }

  /** The codes of the pressed entries, in order. */
  function Ordered(items: seq<HeldKey>): seq<KeyCode> {
    if items == [] then [] else CodeIn(items[0]) + Ordered(items[1..])
  }

  function CodeIn(h: HeldKey): seq<KeyCode> {
    if h.pressed then [h.code] else []
  }

  lemma {:induction false} OrderedAppend(items: seq<HeldKey>, h: HeldKey)
    requires h.pressed
    ensures Ordered(items + [h]) == Ordered(items) + [h.code]
  {
    if items == [] {
      assert items + [h] == [h] && [h][1..] == [];
    } else {
      assert (items + [h])[1..] == items[1..] + [h];
      OrderedAppend(items[1..], h);
      Regroup(CodeIn(items[0]), Ordered(items[1..]), [h.code]);
    }
  }

  lemma {:induction false} WithoutFirst(h: HeldKey, rest: seq<KeyCode>, code: KeyCode)
    ensures WithoutCode(CodeIn(h) + rest, code) == (if h.code == code then [] else CodeIn(h)) + WithoutCode(rest, code)
  {
    if h.pressed {
      assert ([h.code] + rest)[1..] == rest;
    } else {
      assert CodeIn(h) + rest == rest;
    }
  }

  lemma {:induction false} NothingLeftOut(items: seq<HeldKey>, code: KeyCode)
    requires forall k | 0 <= k < |items| && items[k].pressed :: items[k].code != code
    ensures WithoutCode(Ordered(items), code) == Ordered(items)
  {
    if items != [] {
      NothingLeftOut(items[1..], code);
      WithoutFirst(items[0], Ordered(items[1..]), code);
    }
  }

  lemma {:induction false} OrderedWithout(before: seq<HeldKey>, after: seq<HeldKey>, i: nat)
    requires i < |before| && before[i].pressed && after == before[i := HeldKey(before[i].code, false)]
    requires forall j, k | 0 <= j < k < |before| && before[j].pressed && before[k].pressed :: before[j].code != before[k].code
    ensures Ordered(after) == WithoutCode(Ordered(before), before[i].code)
  {
    var code := before[i].code;
    WithoutFirst(before[0], Ordered(before[1..]), code);
    if i == 0 {
      assert after[1..] == before[1..];
      NothingLeftOut(before[1..], code);
    } else {
      assert after[1..] == before[1..][i - 1 := HeldKey(code, false)];
      OrderedWithout(before[1..], after[1..], i - 1);
    }
  }

  lemma {:induction false} NewestIsBackwards(items: seq<HeldKey>)
    ensures Newest(items) == Backwards(Ordered(items))
  {
    if items != [] {
      var rest := Ordered(items[1..]);
      NewestIsBackwards(items[1..]);
      if items[0].pressed {
        assert ([items[0].code] + rest)[1..] == rest;
      } else {
        assert [] + rest == rest && Backwards(rest) + [] == Backwards(rest);
      }
    }
  }

  lemma {:induction false} OrderedElements(items: seq<HeldKey>)
    ensures Elements(Ordered(items)) == PressedIn(items)
  {
    NewestElements(items);
    NewestIsBackwards(items);
    BackwardsElements(Ordered(items));
  }

  /** The codes of the pressed entries, the last one first. */
  function Newest(items: seq<HeldKey>): seq<KeyCode> {
    if items == [] then [] else Newest(items[1..]) + if items[0].pressed then [items[0].code] else []
  }

  lemma {:induction false} NewestElements(items: seq<HeldKey>)
    ensures Elements(Newest(items)) == PressedIn(items)
  {
    if items != [] {
      var rest := items[1..];
      NewestElements(rest);
      assert items == [items[0]] + rest;
      forall c ensures c in PressedIn(items) <==> c in PressedIn(rest) || (items[0].pressed && c == items[0].code) {
        if c in PressedIn(rest) {
          var i :| 0 <= i < |rest| && rest[i].pressed && rest[i].code == c;
          assert items[i + 1] == rest[i];
        }
        if c in PressedIn(items) {
          var i :| 0 <= i < |items| && items[i].pressed && items[i].code == c;
          if i > 0 { assert rest[i - 1] == items[i]; }
        }
      }
    }
  }

  lemma {:induction false} PressedAppend(items: seq<HeldKey>, h: HeldKey)
    requires h.pressed
    ensures PressedIn(items + [h]) == PressedIn(items) + {h.code}
  {
    var all := items + [h];
    forall c | c in PressedIn(items) + {h.code} ensures c in PressedIn(all) {
      if c in PressedIn(items) {
        var i :| 0 <= i < |items| && items[i].pressed && items[i].code == c;
        assert all[i] == items[i];
      } else {
        assert all[|items|] == h;
      }
    }
  }

  lemma {:induction false} PressedOff(before: seq<HeldKey>, after: seq<HeldKey>, i: nat)
    requires i < |before| && after == before[i := HeldKey(before[i].code, false)]
    requires forall j, k | 0 <= j < k < |before| && before[j].pressed && before[k].pressed :: before[j].code != before[k].code
    ensures PressedIn(after) == if before[i].pressed then PressedIn(before) - {before[i].code} else PressedIn(before)
  {
    forall c | c in PressedIn(before) && (before[i].pressed ==> c != before[i].code) ensures c in PressedIn(after) {
      var j :| 0 <= j < |before| && before[j].pressed && before[j].code == c;
      assert after[j] == before[j];
    }
    forall c | c in PressedIn(after) ensures c in PressedIn(before) && (before[i].pressed ==> c != before[i].code) {
      var j :| 0 <= j < |after| && after[j].pressed && after[j].code == c;
      assert after[j] == before[j];
    }
  }

  lemma {:induction false} PressedWithout(before: seq<HeldKey>, after: seq<HeldKey>, i: nat)
    requires i < |before| && before[i].pressed && after == before[i := HeldKey(before[i].code, false)]
    requires forall j, k | 0 <= j < k < |before| && before[j].pressed && before[k].pressed :: before[j].code != before[k].code
    ensures PressedIn(after) == PressedIn(before) - {before[i].code}
  {
    PressedOff(before, after, i);
  }

  // ---------------------------------------------------------------- injecting keys

  class Injector {
    const server: Server
    const layout: Layout
    var cancelled: bool

    constructor (server: Server, layout: Layout)
      ensures this.server == server && this.layout == layout && !cancelled
    {
      this.server, this.layout, cancelled := server, layout, false;
    }

    /** The signal to cancel may come at any time, and it stays. */
    method Poll() returns (now: bool)
      modifies this`cancelled
      ensures now == cancelled && (old(cancelled) ==> cancelled)
    {
      var signal: bool := *;
      if signal { cancelled := true; }
      now := cancelled;
    }

    /** What the run has to answer for: every key that went down and is not in `x` is up again or excused. */
    ghost predicate Fine(x: set<KeyCode>)
      reads server
    {
      Accounted(server.before, server.log, x, layout.shift)
    }

    /** The table holds exactly the keys that are kept down. */
    ghost predicate Tracks(held: HeldKeys)
      reads server, held, held.items
    {
      held.Valid() && held.Order() == Kept(server.log) && held.count == KeyDowns(server.log)
    }

    method Press(code: KeyCode, ghost role: Role, ghost x: set<KeyCode>) returns (ok: bool)
      requires Fine(x)
      modifies server`log
      ensures server.log == old(server.log) + [Injection(code, true, role, ok)]
      ensures Fine(if ok then x + {code} else x)
      ensures !role.Keeping? ==> SameKept(old(server.log), server.log)
    {
      ghost var log := server.log;
      ok := server.FakeKey(code, true, role);
      AccountedPress(server.before, log, x, layout.shift, Injection(code, true, role, ok));
      KeptOneMore(log, Injection(code, true, role, ok));
    }

    method Release(code: KeyCode, ghost role: Role, ghost x: set<KeyCode>) returns (ok: bool)
      requires Fine(x)
      modifies server`log
      ensures server.log == old(server.log) + [Injection(code, false, role, ok)] && Fine(x - {code})
      ensures !role.Keeping? ==> SameKept(old(server.log), server.log)
    {
      ghost var log := server.log;
      ok := server.FakeKey(code, false, role);
      AccountedRelease(server.before, log, x, layout.shift, Injection(code, false, role, ok));
      KeptOneMore(log, Injection(code, false, role, ok));
    }

    /** Read the list into the buffer of keycodes. */
    method CollectModifiers(mods: seq<Modifier>, codes: array<KeyCode>) returns (ok: bool, count: nat)
      requires codes.Length == MAX_MODIFIERS
      modifies codes
      ensures ok <==> ModifierCodes(mods, layout).Some?
      ensures count <= MAX_MODIFIERS && (ok ==> codes[..count] == ModifierCodes(mods, layout).value)
    {
      ok, count := true, 0;
      for i := 0 to |mods|
        invariant ok && count == i <= MAX_MODIFIERS && ModifierCodes(mods[..i], layout) == Some(codes[..count])
      {
        assert mods[..i + 1][..i] == mods[..i];
        if count >= MAX_MODIFIERS || mods[i].Fn? || layout.modifier(mods[i].id) == 0 {
          ModifierCodesPrefix(mods, layout, i + 1);
          return false, count;
        }
        ghost var front := codes[..count];
        codes[count] := layout.modifier(mods[i].id);
        count := count + 1;
        assert codes[..count] == front + [layout.modifier(mods[i].id)] && mods[..i + 1][i] == mods[i];
      }
      assert mods[..|mods|] == mods;
    }

    /** Release the first `n` keys, the last one first, whatever happens on the way. */
    method ReleaseCodes(codes: array<KeyCode>, n: nat, ghost x: set<KeyCode>) returns (ok: bool, ghost done: seq<Injection>)
      requires n <= codes.Length && Fine(x)
      modifies server`log
      ensures server.log == old(server.log) + done && ReleasesOf(done, Backwards(codes[..n])) && (ok <==> AllOk(done))
      ensures Fine(x - Elements(codes[..n])) && SameKept(old(server.log), server.log)
    {
      ok, done := true, [];
      ghost var log := server.log;
      var i := n;
      while i > 0
        invariant 0 <= i <= n
        invariant server.log == old(server.log) + done && ReleasesOf(done, Backwards(codes[i..n])) && (ok <==> AllOk(done))
      {
        i := i - 1;
        var released := server.FakeKey(codes[i], false, Plain);
        assert codes[i..n][1..] == codes[i + 1..n];
        OneMoreOk(done, Releasing(codes[i], released));
        done := done + [Releasing(codes[i], released)];
        if !released { ok := false; }
      }
      assert codes[0..n] == codes[..n];
      AccountedReleases(server.before, log, x, layout.shift, done, Backwards(codes[..n]));
      NothingKept(log, done);
      BackwardsElements(codes[..n]);
    }

    /** Press the keys in order; after a failure release those that went down. */
    method PressCodes(codes: array<KeyCode>, n: nat, ghost x: set<KeyCode>) returns (ok: bool, ghost done: seq<Injection>)
      requires n <= codes.Length && Fine(x)
      modifies server`log
      ensures server.log == old(server.log) + done && Fine(if ok then x + Elements(codes[..n]) else x)
      ensures if ok then PressesOf(done, codes[..n]) else PressesTakenBack(done, codes[..n])
      ensures SameKept(old(server.log), server.log)
    {
      done := [];
      assert x + Elements(codes[..0]) == x;
      for pressed := 0 to n
        invariant server.log == old(server.log) + done && PressesOf(done, codes[..pressed])
        invariant Fine(x + Elements(codes[..pressed])) && SameKept(old(server.log), server.log)
      {
        ghost var front := codes[..pressed];
        ok := Press(codes[pressed], Plain, x + Elements(front));
        if !ok {
          ghost var back;
          var released;
          released, back := ReleaseCodes(codes, pressed, x + Elements(front));
          assert codes[..pressed] == codes[..n][..pressed] == front;
          AccountedMore(server.before, server.log, x + Elements(front) - Elements(front), x, layout.shift);
          TakenBack(done, back, codes[..n], pressed);
          Regroup(old(server.log), done, [Pressing(codes[pressed], false)]);
          Regroup(old(server.log), done + [Pressing(codes[pressed], false)], back);
          done := done + [Pressing(codes[pressed], false)] + back;
          return;
        }
        Regroup(old(server.log), done, [Pressing(codes[pressed], true)]);
        done := done + [Pressing(codes[pressed], true)];
        assert codes[..pressed + 1] == front + [codes[pressed]];
        assert x + Elements(codes[..pressed + 1]) == x + Elements(front) + {codes[pressed]};
      }
      ok := true;
    }

    /** Press and release one key. */
    method TapKey(code: KeyCode, ghost x: set<KeyCode>) returns (ok: bool, ghost done: seq<Injection>)
      requires Fine(x)
      modifies server`log
      ensures server.log == old(server.log) + done && TapOf(done, code, ok) && Fine(x) && SameKept(old(server.log), server.log)
    {
      ok := Press(code, Plain, x);
      done := [Pressing(code, ok)];
      if !ok { return; }
      ok := Release(code, Plain, x + {code});
      AccountedMore(server.before, server.log, x + {code} - {code}, x, layout.shift);
      Regroup(old(server.log), done, [Releasing(code, ok)]);
      done := done + [Releasing(code, ok)];
    }

    /**
     Press and release the key of a symbol, with shift around it where the symbol needs it. When
     the key itself fails the call returns without releasing shift.
     */
    method TapSymbol(sym: KeySym, code: KeyCode, ghost x: set<KeyCode>) returns (ok: bool, ghost done: seq<Injection>)
      requires Fine(x)
      modifies server`log
      ensures server.log == old(server.log) + done && Fine(x) && SameKept(old(server.log), server.log)
      ensures if layout.shifted(sym) && layout.shift != 0 then ShiftedTapOf(done, layout.shift, code, ok) else TapOf(done, code, ok)
    {
      var withShift := layout.shifted(sym) && layout.shift != 0;
      if !withShift {
        ok, done := TapKey(code, x);
        return;
      }
      ok := Press(layout.shift, Shifting, x);
      done := [AutoShift(layout.shift, ok)];
      if !ok { return; }
      ghost var tap;
      ok, tap := TapKey(code, x + {layout.shift});
      Regroup(old(server.log), done, tap);
      done := done + tap;
      assert done[0] == AutoShift(layout.shift, true) && done[1..] == tap;
      if !ok {
        ShiftGivenUp(server.before, old(server.log), tap, x, layout.shift, code);
        return;
      }
      ok := Release(layout.shift, Plain, x + {layout.shift});
      AccountedMore(server.before, server.log, x + {layout.shift} - {layout.shift}, x, layout.shift);
      Regroup(old(server.log), done, [Releasing(layout.shift, ok)]);
      done := done + [Releasing(layout.shift, ok)];
      assert done[1..3] == tap;
    }

    /** Press the key of a symbol and keep it down: only once, and only when there is room. */
    method HoldSymbol(code: KeyCode, held: HeldKeys, ghost x: set<KeyCode>) returns (ok: bool, ghost done: seq<Injection>)
      requires Tracks(held) && Fine(x + held.Pressed())
      modifies server`log, held, held.items
      ensures Tracks(held) && Fine(x + held.Pressed())
      ensures server.log == old(server.log) + done
      ensures if code in Kept(old(server.log)) || KeyDowns(old(server.log)) >= MAX_HELD_KEYS then done == [] && !ok
              else done == [Keep(code, ok)]
    {
      ok, done := false, [];
      OrderedElements(held.items[..held.count]);
      var known := held.Contains(code);
      if known || held.count >= MAX_HELD_KEYS { return; }
      ghost var pressed, log := held.Pressed(), server.log;
      ok := Press(code, Keeping, x + pressed);
      done := [Keep(code, ok)];
      KeptOneMore(log, Keep(code, ok));
      if !ok { return; }
      var added := held.Add(code);
      assert added;  // so the branch that gives the key up again is never taken
      assert x + pressed + {code} == x + held.Pressed();
    }

    /** Release a held key; one that was not pressed before cannot be released. */
    method LetGo(code: KeyCode, held: HeldKeys, ghost x: set<KeyCode>) returns (ok: bool, ghost done: seq<Injection>)
      requires Tracks(held) && Fine(x + held.Pressed())
      modifies server`log, held, held.items
      ensures Tracks(held) && Fine(x + held.Pressed())
      ensures server.log == old(server.log) + done
      ensures if code in Kept(old(server.log)) then done == [Drop(code, ok)] else done == [] && !ok
    {
      done := [];
      OrderedElements(held.items[..held.count]);
      ok := held.Contains(code);
      if !ok { return; }
      ghost var pressed, log := held.Pressed(), server.log;
      ok := Release(code, Keeping, x + pressed);
      done := [Drop(code, ok)];
      KeptOneMore(log, Drop(code, ok));
      if ok { var _ := held.Remove(code); }
      AccountedMore(server.before, server.log, x + pressed - {code}, x + held.Pressed(), layout.shift);
    }

    method SendExistingKeysym(sym: KeySym, mode: Mode, held: HeldKeys, ghost x: set<KeyCode>)
      returns (ok: bool, ghost done: seq<Injection>, ghost outcome: Outcome)
      requires Tracks(held) && Fine(x + held.Pressed())
      modifies server`log, held, held.items
      ensures Tracks(held) && Fine(x + held.Pressed()) && server.log == old(server.log) + done
      ensures KeyEvents(done, mode, sym, layout, old(server.log), outcome) && (ok <==> outcome.Done?)
    {
      var code := layout.code(sym);
      if code == 0 { return false, [], Refused; }
      match mode {
        case Tap => ok, done := TapSymbol(sym, code, x + held.Pressed());
        case Down => ok, done := HoldSymbol(code, held, x);
        case Up => ok, done := LetGo(code, held, x);
      }
      outcome := if ok then Done else if mode != Tap && done == [] then Untracked else Failed;
    }

    /** A symbol without a key of its own is put on the scratch key for a moment. */
    method SendDynamicUnicode(ghost x: set<KeyCode>) returns (ok: bool, ghost p: Part)
      requires Fine(x)
      modifies server`log, server`asked
      ensures Fine(x) && SameKept(old(server.log), server.log)
      ensures server.log == old(server.log) + p.events && server.asked == old(server.asked) + p.asked
      ensures Scratched(p, layout.scratch, |old(server.log)|) && (ok <==> p.outcome.Done?)
    {
      var scratch := layout.scratch;
      ghost var done;
      var inspected := server.Ask(Mapping);
      if !inspected { return false, Part([], [Check(Mapping, |server.log|, false)], Uninspected); }
      ok := Press(scratch, Plain, x);
      done := [Pressing(scratch, ok)];
      if ok {
        ok := Release(scratch, Plain, x + {scratch});
        Regroup(old(server.log), done, [Releasing(scratch, ok)]);
        done := done + [Releasing(scratch, ok)];
        AccountedMore(server.before, server.log, x + {scratch} - {scratch}, x, layout.shift);
        if !ok {
          var again := Release(scratch, Plain, x);
          AccountedMore(server.before, server.log, x - {scratch}, x, layout.shift);
          Regroup(old(server.log), done, [Releasing(scratch, again)]);
          done := done + [Releasing(scratch, again)];
        }
      }
      p := Part(done, [Check(Mapping, |old(server.log)|, true)], if ok then Done else Failed);
    }

    method SendCharacter(cp: bv32, ghost x: set<KeyCode>) returns (ok: bool, ghost p: Part)
      requires Fine(x)
      modifies server`log, server`asked
      ensures Fine(x) && SameKept(old(server.log), server.log)
      ensures server.log == old(server.log) + p.events && server.asked == old(server.asked) + p.asked
      ensures Character(p, cp, layout, old(server.log)) && (ok <==> p.outcome.Done?)
    {
      var sym := KeysymOf(cp);
      if layout.code(sym) != 0 {
        ghost var done;
        ok, done := TapSymbol(sym, layout.code(sym), x);
        p := Part(done, [], if ok then Done else Failed);
      } else {
        ok, p := SendDynamicUnicode(x);
      }
    }

    /** Before every step: is the run cancelled, and does the window have the focus? */
    method Ready() returns (outcome: Outcome, ghost asked: seq<Check>)
      modifies server`asked, this`cancelled
      ensures server.asked == old(server.asked) + asked && (old(cancelled) ==> outcome == Cancelled)
      ensures outcome == Cancelled ==> cancelled && asked == []
      ensures outcome != Cancelled ==> outcome in {Done, Unfocused} && asked == [Check(Focus, |server.log|, outcome == Done)]
    {
      var now := Poll();
      if now { return Cancelled, []; }
      var focused := server.Ask(Focus);
      return if focused then Done else Unfocused, [Check(Focus, |server.log|, focused)];
    }

    /** Type the next character, and say how many bytes it takes; none when nothing is typed. */
    method TypeNext(rest: Utf8.Bytes, ghost x: set<KeyCode>) returns (ok: bool, n: nat, ghost p: Part, ghost cp: bv32)
      requires Fine(x)
      modifies server`log, server`asked, this`cancelled
      ensures Fine(x) && SameKept(old(server.log), server.log)
      ensures server.log == old(server.log) + p.events && server.asked == old(server.asked) + p.asked
      ensures if n == 0 then p.events == [] && StopsIn(rest, p.asked, |server.log|, p.outcome)
              else IsFirst(rest, cp, n) && GuardedCharacter(p, cp, layout, old(server.log)) && (ok <==> p.outcome.Done?)
      ensures (n == 0 ==> (ok <==> p.outcome.Cancelled?)) && (p.outcome.Cancelled? || old(cancelled) ==> cancelled)
      ensures old(cancelled) ==> n == 0
    {
      n, cp := 0, 0;
      ghost var at, looked := |server.log|, [];
      var ready;
      ready, looked := Ready();
      if ready != Done { return ready == Cancelled, 0, Part([], looked, ready), 0; }
      var next := Next(rest);
      if next.None? { return false, 0, Part([], looked, Refused), 0; }
      AcceptsOnlyEncodings(rest);
      n, cp := next.value.1, next.value.0;
      ok, p := SendCharacter(next.value.0, x);
      Regroup(old(server.asked), looked, p.asked);
      p := Focused(at, p);
    }

    /** Type a text character by character; the loop ends because the decoder always advances. */
    method SendText(text: Utf8.Bytes, ghost x: set<KeyCode>)
      returns (ok: bool, ghost parts: seq<Part>, ghost cps: seq<bv32>, ghost end: seq<Check>, ghost outcome: Outcome)
      requires Fine(x)
      modifies server`log, server`asked, this`cancelled
      ensures Fine(x) && SameKept(old(server.log), server.log)
      ensures server.log == old(server.log) + Sent(parts) && server.asked == old(server.asked) + Asked(parts) + end
      ensures Typed(parts, cps, text, layout, old(server.log)) && TextEnds(parts, cps, text, end, |server.log|, outcome)
      ensures (ok <==> outcome in {Done, Cancelled}) && (outcome.Cancelled? || old(cancelled) ==> cancelled)
    {
      var i := 0;
      ghost var log, asked := server.log, server.asked;
      ok, parts, cps, end, outcome := true, [], [], [], Done;
      while i < |text|
        invariant i <= |text| && ok && Fine(x) && SameKept(log, server.log) && (old(cancelled) ==> cancelled)
        invariant server.log == log + Sent(parts) && server.asked == asked + Asked(parts) && end == [] && outcome == Done
        invariant TypedTo(parts, cps, text, layout, log, i)
        decreases |text| - i
      {
        ghost var p, cp;
        var n;
        ok, n, p, cp := TypeNext(text[i..], x);
        outcome := p.outcome;
        if n == 0 {
          end := p.asked;
          break;
        }
        parts, cps := OneMoreCharacter(parts, cps, text, layout, log, asked, i, cp, n, p, server.log, server.asked);
        if !ok { return; }
        i := i + n;
      }
      TypingStops(parts, cps, text, layout, log, i, end, |server.log|, outcome);
    }

    method SendKind(kind: Kind, sym: KeySym, held: HeldKeys, ghost x: set<KeyCode>)
      returns (ok: bool, ghost done: seq<Injection>, ghost outcome: Outcome)
      requires Tracks(held) && Fine(x + held.Pressed())
      modifies server`log, held, held.items
      ensures Tracks(held) && Fine(x + held.Pressed()) && server.log == old(server.log) + done
      ensures KindEvents(done, kind, sym, layout, old(server.log), outcome) && (ok <==> outcome.Done?)
    {
      match kind
      case KeyPress => ok, done, outcome := SendExistingKeysym(sym, Tap, held, x);
      case KeyDown => ok, done, outcome := SendExistingKeysym(sym, Down, held, x);
      case KeyUp => ok, done, outcome := SendExistingKeysym(sym, Up, held, x);
      case _ => ok, done, outcome := false, [], Refused;
    }

    /** The key event behind the presses of its modifiers, and their releases. */
    method SendBetween(kind: Kind, sym: KeySym, mods: seq<Modifier>, held: HeldKeys, codes: array<KeyCode>, n: nat,
                       ghost log: seq<Injection>, ghost pressed: seq<Injection>)
      returns (ok: bool, ghost done: seq<Injection>, ghost outcome: Outcome)
      requires codes.Length == MAX_MODIFIERS && n <= MAX_MODIFIERS && ModifierCodes(mods, layout) == Some(codes[..n])
      requires PressesOf(pressed, codes[..n]) && server.log == log + pressed
      requires Tracks(held) && Fine(held.Pressed() + Elements(codes[..n]))
      modifies server`log, held, held.items, codes
      ensures Tracks(held) && Fine(held.Pressed()) && server.log == log + done
      ensures ModifiedEvents(done, kind, sym, mods, layout, log, outcome) && (ok <==> outcome.Done?)
    {
      ghost var x := Elements(codes[..n]);
      assert held.Pressed() + x == x + held.Pressed();
      ghost var sent, released, key;
      ok, sent, key := SendKind(kind, sym, held, x);
      var collected, count := CollectModifiers(mods, codes);
      var back;
      back, released := ReleaseCodes(codes, count, x + held.Pressed());
      AccountedMore(server.before, server.log, x + held.Pressed() - x, held.Pressed(), layout.shift);
      if !collected || !back { ok := false; }
      ModifiedByKey(log, pressed, sent, released, codes[..count], kind, sym, mods, layout, key);
      done, outcome := pressed + sent + released, AfterReleases(key, released);
    }

    /** One key event with its modifiers, which are released whatever became of the key. */
    method SendWithModifiers(kind: Kind, sym: KeySym, mods: seq<Modifier>, held: HeldKeys)
      returns (ok: bool, ghost done: seq<Injection>, ghost outcome: Outcome)
      requires Tracks(held) && Fine(held.Pressed())
      modifies server`log, held, held.items
      ensures Tracks(held) && Fine(held.Pressed()) && server.log == old(server.log) + done
      ensures ModifiedEvents(done, kind, sym, mods, layout, old(server.log), outcome) && (ok <==> outcome.Done?)
    {
      var codes := new KeyCode[MAX_MODIFIERS];
      var count;
      done, outcome := [], Refused;
      ok, count := CollectModifiers(mods, codes);
      if !ok { return; }
      ghost var x := Elements(codes[..count]);
      ok, done := PressCodes(codes, count, held.Pressed());
      outcome := Failed;
      if !ok { return; }
      ok, done, outcome := SendBetween(kind, sym, mods, held, codes, count, old(server.log), done);
    }

    /** One repetition of a line. */
    method SendOnce(f: Fields, key: Utf8.Bytes, code: Utf8.Bytes, text: Utf8.Bytes, mods: Utf8.Bytes, held: HeldKeys)
      returns (ok: bool, ghost p: Part)
      requires WellFormed(f) && Decoded(f.key).value == key && Decoded(f.code).value == code
      requires Decoded(f.text).value == text && Decoded(f.mods).value == mods
      requires Tracks(held) && Fine(held.Pressed())
      modifies server`log, server`asked, held, held.items, this`cancelled
      ensures Tracks(held) && Fine(held.Pressed())
      ensures server.log == old(server.log) + p.events && server.asked == old(server.asked) + p.asked
      ensures SentOnce(p, f, layout, old(server.log))
      ensures (ok <==> p.outcome in {Done, Cancelled}) && (p.outcome.Cancelled? || old(cancelled) ==> cancelled)
    {
      if f.kind.TextEvent? {
        var length := StringLength(text);
        if length == 0 { return false, Part([], [], Refused); }
        ghost var log, asked := server.log, server.asked;
        ghost var parts, cps, end, outcome;
        ok, parts, cps, end, outcome := SendText(text[..length], held.Pressed());
        p := TextIsSent(log, asked, parts, cps, text[..length], layout, end, outcome, server.log, server.asked);
      } else {
        var sym := layout.named(key, code);
        if sym == 0 { return false, Part([], [], Refused); }
        ghost var done, outcome;
        ok, done, outcome := SendWithModifiers(f.kind, sym, layout.modifiers(mods), held);
        p := Part(done, [], outcome);
        ModifiedNotCancelled(done, f.kind, sym, layout.modifiers(mods), layout, old(server.log), outcome);
      }
    }

    /** One repetition of a line, if the run goes on. */
    method SendRound(f: Fields, key: Utf8.Bytes, code: Utf8.Bytes, text: Utf8.Bytes, mods: Utf8.Bytes, held: HeldKeys)
      returns (ok: bool, sent: bool, ghost p: Part)
      requires WellFormed(f) && Decoded(f.key).value == key && Decoded(f.code).value == code
      requires Decoded(f.text).value == text && Decoded(f.mods).value == mods
      requires Tracks(held) && Fine(held.Pressed())
      modifies server`log, server`asked, held, held.items, this`cancelled
      ensures Tracks(held) && Fine(held.Pressed())
      ensures server.log == old(server.log) + p.events && server.asked == old(server.asked) + p.asked
      ensures if sent then Round(p, f, layout, old(server.log))
              else p == Part([], [], Cancelled) || p == Part([], [Check(Focus, |server.log|, false)], Unfocused)
      ensures (ok <==> p.outcome in {Done, Cancelled}) && (p.outcome.Cancelled? || old(cancelled) ==> cancelled)
      ensures old(cancelled) ==> p == Part([], [], Cancelled) && !sent
    {
      ghost var at, looked := |server.log|, [];
      var ready;
      ready, looked := Ready();
      if ready != Done { return ready == Cancelled, false, Part([], looked, ready); }
      sent := true;
      ok, p := SendOnce(f, key, code, text, mods, held);
      Regroup(old(server.asked), looked, p.asked);
      p := Focused(at, p);
    }

    /** The repetitions of a line. */
    method SendRepeatedly(f: Fields, key: Utf8.Bytes, code: Utf8.Bytes, text: Utf8.Bytes, mods: Utf8.Bytes, held: HeldKeys)
      returns (ok: bool, ghost rounds: seq<Part>, ghost end: seq<Check>, ghost outcome: Outcome)
      requires WellFormed(f) && Decoded(f.key).value == key && Decoded(f.code).value == code
      requires Decoded(f.text).value == text && Decoded(f.mods).value == mods
      requires Tracks(held) && Fine(held.Pressed())
      modifies server`log, server`asked, held, held.items, this`cancelled
      ensures Tracks(held) && Fine(held.Pressed())
      ensures server.log == old(server.log) + Sent(rounds) && server.asked == old(server.asked) + Asked(rounds) + end
      ensures Repeated(rounds, f, layout, old(server.log)) && LineEnds(rounds, f.times.value, end, |server.log|, outcome)
      ensures (ok <==> outcome in {Done, Cancelled}) && (outcome.Cancelled? || old(cancelled) ==> cancelled)
    {
      ghost var log, asked := server.log, server.asked;
      ok, rounds, end, outcome := true, [], [], Done;
      for iteration := 0 to f.times.value
        invariant Tracks(held) && Fine(held.Pressed()) && ok && (old(cancelled) ==> cancelled)
        invariant server.log == log + Sent(rounds) && server.asked == asked + Asked(rounds) && end == []
        invariant |rounds| == iteration && Repeated(rounds, f, layout, log)
        invariant if outcome.Done? then AllDone(rounds) else outcome.Cancelled? && cancelled && EndedBy(rounds, outcome)
      {
        ghost var p;
        var sent;
        ok, sent, p := SendRound(f, key, code, text, mods, held);
        if !sent {
          end, outcome := p.asked, if outcome.Done? then p.outcome else outcome;
          break;
        }
        rounds := OneMoreRound(rounds, f, layout, log, asked, p, server.log, server.asked);
        outcome := p.outcome;
        if !ok { break; }
      }
    }

    /** One line of the plan: decode it, check it, and send it as often as it says. */
    method ExecuteEvent(f: Fields, held: HeldKeys) returns (ok: bool, ghost p: Part)
      requires Tracks(held) && Fine(held.Pressed())
      modifies server`log, server`asked, held, held.items, this`cancelled
      ensures Tracks(held) && Fine(held.Pressed())
      ensures server.log == old(server.log) + p.events && server.asked == old(server.asked) + p.asked
      ensures LineSent(p, f, layout, old(server.log))
      ensures (ok <==> p.outcome in {Done, Cancelled}) && (p.outcome.Cancelled? || old(cancelled) ==> cancelled)
    {
      var key := Base64.DecodeText(f.key);
      var code := Base64.DecodeText(f.code);
      var text := Base64.DecodeText(f.text);
      var mods := Base64.DecodeText(f.mods);
      if key.None? || code.None? || text.None? || mods.None? || !InRange(f.times, 1, 100) || !InRange(f.delay, 0, 10000) {
        return false, Part([], [], Refused);
      }
      ghost var log, asked := server.log, server.asked;
      ghost var rounds, end, outcome;
      ok, rounds, end, outcome := SendRepeatedly(f, key.value, code.value, text.value, mods.value, held);
      p := LineIsSent(log, asked, rounds, f, layout, end, outcome, server.log, server.asked);
    }

    method PerformLine(line: Line, held: HeldKeys) returns (ok: bool, ghost p: Part)
      requires Tracks(held) && Fine(held.Pressed())
      modifies server`log, server`asked, held, held.items, this`cancelled
      ensures Tracks(held) && Fine(held.Pressed())
      ensures server.log == old(server.log) + p.events && server.asked == old(server.asked) + p.asked
      ensures Performed(p, line, layout, old(server.log))
      ensures (ok <==> p.outcome in {Done, Cancelled}) && (p.outcome.Cancelled? || old(cancelled) ==> cancelled)
    {
      match line
      case Blank => ok, p := true, Part([], [], Done);
      case WrongFieldCount => ok, p := false, Part([], [], Refused);
      case Event(fields) => ok, p := ExecuteEvent(fields, held);
    }

    /** The loop over the lines. */
    method PerformPlan(plan: seq<Line>, held: HeldKeys) returns (ok: bool, ghost parts: seq<Part>, ghost outcome: Outcome)
      requires Tracks(held) && Fine(held.Pressed()) && server.log == [] && server.asked == []
      modifies server`log, server`asked, held, held.items, this`cancelled
      ensures Tracks(held) && Fine(held.Pressed())
      ensures server.log == Sent(parts) && server.asked == Asked(parts)
      ensures AllPerformed(parts, plan, layout) && PlanEnds(parts, plan, outcome)
      ensures (ok <==> outcome in {Done, Cancelled}) && (outcome.Cancelled? ==> cancelled)
    {
      var events, i := 0, 0;
      ok, parts, outcome := true, [], Done;
      while i < |plan| && ok
        invariant 0 <= i <= |plan| && Tracks(held) && Fine(held.Pressed())
        invariant server.log == Sent(parts) && server.asked == Asked(parts)
        invariant |parts| == i && events == Counted(plan[..i]) && AllPerformed(parts, plan, layout)
        invariant if outcome.Done? then AllDone(parts) else EndedBy(parts, outcome)
        invariant (ok <==> outcome in {Done, Cancelled}) && (outcome.Cancelled? ==> cancelled)
        decreases |plan| - i
      {
        var now := Poll();
        if now {
          outcome := Cancelled;
          return;
        }
        var line := plan[i];
        CountedOneMore(plan, i);
        if !line.Blank? {
          events := events + 1;
          if events > MAX_EVENTS {
            ok, outcome := false, TooMany;
            return;
          }
        }
        ghost var p;
        ok, p := PerformLine(line, held);
        parts := OneMoreLine(parts, plan, layout, p);
        i, outcome := i + 1, p.outcome;
      }
    }

    /**
     A whole plan. `p` is what its lines injected and asked, in order and as often as they say, and
     why that ended; `released` takes back what the plan left kept down, the newest first.
     Whatever fails, and wherever it is cancelled: a key is down at the end only if it was down
     before, its release failed and nothing came through for it since, or it is the shift of a
     symbol whose own key failed.
     */
    method CommandSequence(plan: seq<Line>) returns (ok: bool, ghost p: Part, ghost released: seq<Injection>)
      modifies server, this`cancelled
      ensures server.before == old(server.Down()) && server.log == p.events + released && server.asked == p.asked
      ensures PlanSent(p, plan, layout) && ReleasesOf(released, Backwards(Kept(p.events)))
      ensures ok <==> p.outcome in {Done, Cancelled} && (released == [] || cancelled)
      ensures p.outcome.Cancelled? ==> cancelled
      ensures Observed(p, []) && PlanExplains(p, plan, layout)
      ensures forall c | c in server.Down() :: c in old(server.Down()) || Excused(server.log, c, layout.shift)
      ensures AllOk(server.log) ==> server.Down() <= old(server.Down())
    {
      cancelled := false;
      server.StartRun();
      var held := new HeldKeys();
      ghost var parts, outcome;
      ok, parts, outcome := PerformPlan(plan, held);
      p := PlanReasons(parts, plan, layout, outcome);
      ok, released := Finish(ok, held);
      if AllOk(server.log) { NothingExcused(server.log, layout.shift); }
    }

    /** Release what is still held; that it was held is an error unless the run was cancelled. */
    method Finish(performed: bool, held: HeldKeys) returns (ok: bool, ghost released: seq<Injection>)
      requires Tracks(held) && Fine(held.Pressed())
      modifies server`log, held.items, this`cancelled
      ensures Fine({}) && server.log == old(server.log) + released
      ensures ReleasesOf(released, Backwards(Kept(old(server.log))))
      ensures (ok <==> performed && (released == [] || cancelled)) && (old(cancelled) ==> cancelled)
    {
      ghost var log, pressed, items := server.log, held.Pressed(), held.items[..held.count];
      ok, released := performed, [];
      NewestElements(items);
      NewestIsBackwards(items);
      var unbalanced := held.AnyPressed();
      if unbalanced {
        released := held.ReleaseAll(server);
        AccountedReleases(server.before, log, pressed, layout.shift, released, Newest(items));
        assert pressed - pressed == {};
        var now := Poll();
        if !now { ok := false; }
        NothingHeld(items);
      } else {
        NothingHeld(items);
      }
    }
  }

  lemma {:induction false} NothingHeld(items: seq<HeldKey>)
    ensures Newest(items) == [] <==> PressedIn(items) == {}
  {
    NewestElements(items);
    if Newest(items) != [] { assert Newest(items)[0] in Elements(Newest(items)); }
  }
}
