/**
 The router's side of a bridge: requests that may be lost on the way there or back, with an
 outside editor at work in between, and what a run of such requests does to the buffer.
 */
module Connection {
  import opened Bridge
  import opened CodeUnits
  import opened Sequences
  import opened Wrappers

  /** What an editor reports in its answers; nothing is assumed about it. */
  datatype Findings = Findings(valid: bool, completed: bool, value: Text, named: bool, replacements: int)

  datatype Answer = Answer(reply: Reply, findings: Findings)

  /** One request: the buffer when it was handled or lost, and what the router heard. */
  datatype Sent = Sent(request: Request, before: State, after: State, answer: Option<Answer>)

  /** The bridge handled the request, or it never arrived; an answer is the bridge's answer. */
  ghost predicate Faithful(e: Sent) {
    && (e.after == Handled(e.before, e.request).0 || (e.after == e.before && e.answer.None?))
    && (e.answer.Some? ==> e.after == Handled(e.before, e.request).0 && e.answer.value.reply == Handled(e.before, e.request).1)
  }

  predicate Succeeded(e: Sent) {
    e.answer.Some? && !e.answer.value.reply.Failed?
  }

  /** The requests of `run`, one after the other, lead from `s` to `t`. */
  ghost predicate Chained(s: State, run: seq<Sent>, t: State)
    decreases |run|
  {
    if run == [] then t == s
    else EditedOutside(s, run[0].before) && Faithful(run[0]) && Chained(run[0].after, run[1..], t)
  }

  lemma {:induction false} ChainedConcat(s: State, a: seq<Sent>, u: State, b: seq<Sent>, t: State)
    requires Chained(s, a, u) && Chained(u, b, t)
    ensures Chained(s, a + b, t)
    decreases |a|
  {
    if a == [] {
      assert a + b == b;
    } else {
      ChainedConcat(a[0].after, a[1..], u, b, t);
      assert (a + b)[1..] == a[1..] + b;
    }
  }

  lemma {:induction false} ChainOne(s: State, e: Sent)
    requires EditedOutside(s, e.before) && Faithful(e)
    ensures Chained(s, [e], e.after)
  {}

  /** A connected editor. */
  class Editor {
    const bridge: FakeEmacsBridge
    ghost var log: seq<Sent>

    constructor ()
      ensures fresh(bridge) && log == []
    {
      bridge := new FakeEmacsBridge();
      log := [];
    }

    /** Somebody edits, or nobody does. */
    method LetOthersEdit()
      modifies bridge
      ensures EditedOutside(old(bridge.CurrentState()), bridge.CurrentState())
    {
      var t: State := *;
      if EditedOutside(bridge.CurrentState(), t) {
        bridge.text, bridge.tick, bridge.stateSeq, bridge.point := t.text, t.tick, t.stateSeq, t.point;
      }
    }

    /** Send a request; it or its reply may get lost, and then there is no answer. */
    method Send(r: Request) returns (answer: Option<Answer>, ghost e: Sent)
      modifies this, bridge
      ensures log == old(log) + [e] && e.request == r && e.answer == answer
      ensures EditedOutside(old(bridge.CurrentState()), e.before) && Faithful(e) && bridge.CurrentState() == e.after
    {
      LetOthersEdit();
      ghost var before := bridge.CurrentState();
      answer := None;
      var arrives: bool := *;
      if arrives {
        var reply := bridge.Handle(r);
        var comesBack: bool := *;
        if comesBack {
          var findings: Findings := *;
          answer := Some(Answer(reply, findings));
        }
      }
      e := Sent(r, before, bridge.CurrentState(), answer);
      log := log + [e];
    }
  }

  // ---------------------------------------------------------------- what requests leave alone

  /** Requests the router makes to look at the buffer. */
  predicate Passive(r: Request) {
    r.Observe? || r.Query? || r.Validate? || r.ReadResource? || r.Navigate? || r.Evaluate?
  }

  predicate IsCheckpoint(r: Request) {
    r.CreateCheckpoint? || r.CommitCheckpoint? || r.RollbackCheckpoint?
  }

  /** The checkpoint requests of a run, in order. */
  function Marks(run: seq<Sent>): seq<Request> {
    if run == [] then [] else Mark(run[0].request) + Marks(run[1..])
  }

  function Mark(r: Request): seq<Request> { if IsCheckpoint(r) then [r] else [] }

  lemma {:induction false} MarksConcat(a: seq<Sent>, b: seq<Sent>)
    ensures Marks(a + b) == Marks(a) + Marks(b)
  {
    if a == [] {
      assert a + b == b;
    } else {
      MarksConcat(a[1..], b);
      assert (a + b)[1..] == a[1..] + b;
      Regroup(Mark(a[0].request), Marks(a[1..]), Marks(b));
    }
  }

  ghost predicate KeepsText(run: seq<Sent>) {
    forall k | 0 <= k < |run| :: run[k].after.text == run[k].before.text
  }

  lemma {:induction false} PassiveKeepsText(e: Sent)
    requires Faithful(e) && (Passive(e.request) || e.request.CreateCheckpoint? || e.request.CommitCheckpoint?)
    ensures e.after.text == e.before.text
  {}

  lemma {:induction false} CheckpointStays(e: Sent)
    requires Faithful(e) && !IsCheckpoint(e.request)
    ensures e.after.checkpoint == e.before.checkpoint
  {
    match e.request
    case ExecuteCommand(effect, _) => { match effect { case _ => } }
    case _ =>
  }

  /** Until the next creation or rollback, the saved text is the one that was saved, or was given up. */
  lemma {:induction false} CheckpointSurvives(s: State, run: seq<Sent>, t: State, saved: Text)
    requires Chained(s, run, t) && (s.checkpoint == Some(saved) || s.checkpoint == None)
    requires forall k | 0 <= k < |run| :: !run[k].request.CreateCheckpoint? && !run[k].request.RollbackCheckpoint?
    ensures t.checkpoint == Some(saved) || t.checkpoint == None
    decreases |run|
  {
    if run != [] {
      var e := run[0];
      if !IsCheckpoint(e.request) { CheckpointStays(e); }
      assert forall k | 0 <= k < |run[1..]| :: run[1..][k] == run[k + 1];
      CheckpointSurvives(e.after, run[1..], t, saved);
    }
  }

  /** After a successful creation, a successful rollback restores the text the buffer had at the creation. */
  lemma {:induction false} RollbackRestores(create: Sent, between: seq<Sent>, s: State, rollback: Sent)
    requires Faithful(create) && create.request.CreateCheckpoint? && Succeeded(create)
    requires Chained(create.after, between, s) && EditedOutside(s, rollback.before)
    requires forall k | 0 <= k < |between| :: !between[k].request.CreateCheckpoint? && !between[k].request.RollbackCheckpoint?
    requires Faithful(rollback) && rollback.request.RollbackCheckpoint? && Succeeded(rollback)
    ensures rollback.after.text == create.before.text
  {
    CheckpointSurvives(create.after, between, s, create.before.text);
  }
}
