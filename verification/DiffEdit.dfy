/**
 Editing a buffer by a unified diff: read everything, apply the diff, replace everything,
 guarded by the tick that was read.
 */
module DiffEdit {
  import opened Bridge
  import opened CodeUnits
  import opened Connection
  import DiffParser
  import LineDiff
  import opened Sequences
  import UnifiedDiff
  import opened Wrappers

  /** The edit that replaces the whole of a buffer that held `length` units. */
  function WholeBuffer(length: nat, replacement: Text): Edit {
    ReplaceRange(Some(1), Some(length + 1), replacement)
  }

  lemma {:induction false} WholeBufferReplaced(t: Text, replacement: Text)
    ensures Edited(t, WholeBuffer(|t|, replacement)) == replacement
  {
    assert Before(t, 0) == [] && Behind(t, |t|) == [];
  }

  /** What a diff makes of a text; None when it is malformed or does not apply. */
  function Patched(t: Text, diff: Text): Option<Text> {
    match DiffParser.Parsed(diff)
    case Err(_) => None
    case Ok(hunks) =>
      match UnifiedDiff.ApplyToText(t, hunks)
      case Err(_) => None
      case Ok(next) => Some(next)
  }

  /** The expected tick that is sent: the caller's precondition, or else the tick that was read. */
  function Expected(supplied: Option<Option<int>>, read: int): Option<int> {
    if supplied.Some? then supplied.value else Some(read)
  }

  /**
   An edit that expects the tick it was computed at replaces the text it was computed from, or
   nothing; whether its answer comes back or not.
   */
  lemma {:induction false} GuardedEditAllOrNothing(s: State, next: Text, e: Sent)
    requires EditedOutside(s, e.before) && Faithful(e)
    requires e.request == EditApply(WholeBuffer(|s.text|, next), Some(s.tick))
    ensures e.after.text == e.before.text || (e.before.text == s.text && e.after.text == next)
    ensures Succeeded(e) ==> e.before.text == s.text && e.after.text == next
  {
    WholeBufferReplaced(s.text, next);
  }

  /** The whole text and its tick, after a look at the state; None when a request failed. */
  method ReadBuffer(editor: Editor) returns (content: Option<Reply>, ghost run: seq<Sent>)
    modifies editor, editor.bridge
    ensures editor.log == old(editor.log) + run && Chained(old(editor.bridge.CurrentState()), run, editor.bridge.CurrentState())
    ensures run != [] && run[0].request == Observe && |run| <= 2 && (|run| == 2 ==> run[1].request == ReadResource(None, None))
    ensures |run| == 2 <==> run[0].answer.Some?
    ensures content.Some? <==> |run| == 2 && Succeeded(run[1])
    ensures content.Some? ==>
              var s := editor.bridge.CurrentState();
              content.value == run[1].answer.value.reply == Content(s.text, s.tick, 1, |s.text| + 1)
  {
    ghost var start := editor.bridge.CurrentState();
    var seen, first := editor.Send(Observe);
    run := [first];
    ChainOne(start, first);
    if seen.None? { return None, run; }
    var answer, second := editor.Send(ReadResource(None, None));
    ChainOne(first.after, second);
    ChainedConcat(start, [first], first.after, [second], second.after);
    run := [first] + [second];
    assert editor.log == old(editor.log) + run;
    if answer.None? || answer.value.reply.Failed? { return None, run; }
    content := Some(answer.value.reply);
  }

  /** Was there something to send: a buffer that was read and to which the diff applies? */
  ghost predicate Patchable(run: seq<Sent>, diff: Text) {
    && |run| >= 2 && Succeeded(run[1])
    && run[1].answer.value.reply.Content? && Patched(run[1].answer.value.reply.text, diff).Some?
  }

  /** The edit that replaces what was read by what the diff makes of it. */
  ghost function PatchOf(run: seq<Sent>, diff: Text, supplied: Option<Option<int>>): Request
    requires Patchable(run, diff)
  {
    var read := run[1].answer.value.reply;
    EditApply(WholeBuffer(|read.text|, Patched(read.text, diff).value), Expected(supplied, read.tick))
  }

  ghost predicate Look(e: Sent) {
    Passive(e.request) && e.after.text == e.before.text
  }

  /** The requests of the call: one look or two, then the edit if there is one to make, and another look if it was answered. */
  ghost predicate EditCall(run: seq<Sent>, diff: Text, supplied: Option<Option<int>>) {
    && 0 < |run| <= 4
    && (forall k | 0 <= k < |run| && k != 2 :: Look(run[k]))
    && (|run| >= 3 <==> Patchable(run, diff))
    && (|run| >= 3 ==> run[2].request == PatchOf(run, diff, supplied))
    && (|run| == 4 <==> |run| >= 3 && Succeeded(run[2]))
  }

  lemma {:induction false} CallEdits(looks: seq<Sent>, sent: Sent, diff: Text, supplied: Option<Option<int>>)
    requires |looks| == 2 && Look(looks[0]) && Look(looks[1]) && Patchable(looks, diff) && sent.request == PatchOf(looks, diff, supplied)
    ensures Patchable(looks + [sent], diff) && PatchOf(looks + [sent], diff, supplied) == PatchOf(looks, diff, supplied)
    ensures !Succeeded(sent) ==> EditCall(looks + [sent], diff, supplied)
  {}

  lemma {:induction false} CallLooks(run: seq<Sent>, last: Sent, diff: Text, supplied: Option<Option<int>>)
    requires |run| == 3 && Look(run[0]) && Look(run[1]) && Patchable(run, diff) && run[2].request == PatchOf(run, diff, supplied)
    requires Succeeded(run[2]) && Look(last)
    ensures EditCall(run + [last], diff, supplied)
  {
    assert PatchOf(run + [last], diff, supplied) == PatchOf(run, diff, supplied);
  }

  /** All or nothing: the edit leaves the text alone, or makes the diff's result of the text it met. */
  ghost predicate AllOrNothing(e: Sent, diff: Text) {
    && (e.after.text == e.before.text || Patched(e.before.text, diff) == Some(e.after.text))
    && (Succeeded(e) ==> Patched(e.before.text, diff) == Some(e.after.text))
  }

  /** From `before` on the editor was sent `run`, which led from one buffer to the other. */
  ghost predicate Sends(before: seq<Sent>, start: State, run: seq<Sent>, after: seq<Sent>, now: State) {
    after == before + run && Chained(start, run, now)
  }

  lemma {:induction false} SendsMore(before: seq<Sent>, start: State, run: seq<Sent>, after: seq<Sent>, now: State, e: Sent)
    requires Sends(before, start, run, after, now) && EditedOutside(now, e.before) && Faithful(e)
    ensures Sends(before, start, run + [e], after + [e], e.after)
  {
    ChainOne(now, e);
    ChainedConcat(start, run, now, [e], e.after);
    Regroup(before, run, [e]);
  }

  /** The edit, and the look behind it when it was answered. */
  method SendPatch(editor: Editor, diff: Text, supplied: Option<Option<int>>, resource: Reply, next: Text,
                   ghost before: seq<Sent>, ghost start: State, ghost looks: seq<Sent>)
    returns (ok: bool, ghost run: seq<Sent>)
    requires Sends(before, start, looks, editor.log, editor.bridge.CurrentState())
    requires |looks| == 2 && Look(looks[0]) && Look(looks[1]) && Succeeded(looks[1]) && looks[1].answer.value.reply == resource
    requires var s := editor.bridge.CurrentState(); resource == Content(s.text, s.tick, 1, |s.text| + 1)
    requires Patched(resource.text, diff) == Some(next)
    modifies editor, editor.bridge
    ensures Sends(before, start, run, editor.log, editor.bridge.CurrentState()) && EditCall(run, diff, supplied)
    ensures |run| >= 3 && (supplied.None? ==> AllOrNothing(run[2], diff))
    ensures ok <==> |run| == 4 && Succeeded(run[3])
  {
    ghost var s := editor.bridge.CurrentState();
    var edit := ReplaceRange(Some(resource.start), Some(resource.end), next);
    var answer, sent := editor.Send(EditApply(edit, Expected(supplied, resource.tick)));
    SendsMore(before, start, looks, old(editor.log), s, sent);
    CallEdits(looks, sent, diff, supplied);
    run := looks + [sent];
    if supplied.None? { GuardedEditAllOrNothing(s, next, sent); }
    if answer.None? || answer.value.reply.Failed? { return false, run; }
    ghost var log := editor.log;
    var after, last := editor.Send(Observe);
    PassiveKeepsText(last);
    SendsMore(before, start, run, log, sent.after, last);
    CallLooks(run, last, diff, supplied);
    run := run + [last];
    ok := after.Some?;
  }

  /**
   The diff branch of the edit tool: all requests of the call, the only one that may change the
   text, and, with the default precondition, what that one does even when its answer is lost.
   */
  method EditByDiff(editor: Editor, diff: Text, supplied: Option<Option<int>>) returns (ok: bool, ghost run: seq<Sent>)
    modifies editor, editor.bridge
    ensures Sends(old(editor.log), old(editor.bridge.CurrentState()), run, editor.log, editor.bridge.CurrentState())
    ensures EditCall(run, diff, supplied)
    ensures |run| >= 3 && supplied.None? ==> AllOrNothing(run[2], diff)
    ensures ok <==> |run| == 4 && Succeeded(run[3])
  {
    var content;
    content, run := ReadBuffer(editor);
    ghost var start := old(editor.bridge.CurrentState());
    LooksKeepText(start, run, editor.bridge.CurrentState());
    if content.None? { return false, run; }
    var patched := DiffParser.ApplyUnifiedDiff(content.value.text, diff);
    if patched.Err? { return false, run; }
    ok, run := SendPatch(editor, diff, supplied, content.value, patched.value, old(editor.log), start, run);
  }

  lemma {:induction false} LooksKeepText(s: State, run: seq<Sent>, t: State)
    requires Chained(s, run, t) && forall k | 0 <= k < |run| :: Passive(run[k].request)
    ensures forall k | 0 <= k < |run| :: Look(run[k])
    decreases |run|
  {
    if run != [] {
      PassiveKeepsText(run[0]);
      assert forall k | 0 <= k < |run[1..]| :: run[1..][k] == run[k + 1];
      LooksKeepText(run[0].after, run[1..], t);
      assert forall k | 0 < k < |run| :: run[k] == run[1..][k - 1];
    }
  }

  // ---------------------------------------------------------------- when updates are safe

  /** From `s` on, whatever happens, an edit guarded by `expected` only succeeds on the text of `s`. */
  ghost predicate NeverLoses(s: State, expected: Option<int>) {
    forall states: seq<State>, events: seq<Event> | IsRun(states, events) && states[0] == s :: OnlyOn(s, states[|events|], expected)
  }

  ghost predicate OnlyOn(s: State, t: State, expected: Option<int>) {
    (forall edit: Edit :: Handled(t, EditApply(edit, expected)).1.Answered?) ==> t.text == s.text
  }

  /**
   An edit computed from the text of `s` can never overwrite somebody else's change exactly
   when it expects a tick no later than the one it was computed at.
   */
  lemma {:induction false} GuardedEditNeverLoses(s: State, expected: Option<int>)
    ensures NeverLoses(s, expected) <==> expected.Some? && expected.value <= s.tick
  {
    if expected.Some? && expected.value <= s.tick {
      forall states: seq<State>, events: seq<Event> | IsRun(states, events) && states[0] == s
        ensures OnlyOn(s, states[|events|], expected)
      {
        TickMonotone(states, events, 0, |events|);
        assert Handled(states[|events|], EditApply(UnknownEdit, expected)).1.Answered? ==> states[|events|].tick == expected.value;
      }
    } else {
      var tick := if expected.Some? then expected.value else s.tick + 1;
      var t := s.(text := s.text + [NEWLINE], tick := tick);
      assert |t.text| != |s.text|;
      assert IsRun([s, t], [Outside(t)]);
      assert !OnlyOn(s, [s, t][1], expected);
    }
  }
}
