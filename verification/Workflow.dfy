/**
 Semantic workflows: a checkpoint, edits, validation, evaluations, and a commit, with one
 rollback when anything goes wrong.
 */
module Workflow {
  import opened Bridge
  import opened CodeUnits
  import opened Connection
  import opened Sequences
  import opened WorkflowDemands
  import opened WorkflowScripts
  import opened Wrappers

  /** A tool call and the requests it sent: none when session, policy or lease refused it. */
  datatype ToolCall = ToolCall(request: Request, sent: seq<Sent>)

  /** The call got as far as an answer: everything it sent succeeded, and it was not refused. */
  ghost predicate GotThrough(call: ToolCall) {
    call.sent != [] && AllSucceeded(call.sent)
  }

  ghost predicate AllSucceeded(seg: seq<Sent>) {
    forall k | 0 <= k < |seg| :: Succeeded(seg[k])
  }

  /** The requests of some calls, one call after the other. */
  ghost function SentBy(calls: seq<ToolCall>): seq<Sent> {
    if calls == [] then [] else SentBy(calls[..|calls| - 1]) + calls[|calls| - 1].sent
  }

  ghost predicate NoRollbackCall(calls: seq<ToolCall>) {
    forall k | 0 <= k < |calls| :: calls[k].request != RollbackCheckpoint
  }

  /**
   The last tool call of a run, and the rollback calls. A run that never started made no rollback
   call and ended with a look, or with a checkpoint that was not answered. A committed run
   made none and ended with an answered commit. Every other run ended with its only rollback
   call, and says that the rollback failed exactly when that call was refused, lost, answered
   with a failure, or not followed by an answered look.
   */
  ghost predicate Concludes(ending: Ending, calls: seq<ToolCall>) {
    && calls != [] && NoRollbackCall(calls[..|calls| - 1])
    && var last := calls[|calls| - 1];
       match ending
       case NotStarted => last.request == Query || (last.request == CreateCheckpoint && !GotThrough(last))
       case Committed => last.request == CommitCheckpoint && GotThrough(last)
       case RollbackFailed => last.request == RollbackCheckpoint && !GotThrough(last)
       case _ => last.request == RollbackCheckpoint && GotThrough(last)
  }

  /** What the router, its guard and its editor have on record, and the buffer as it is. */
  datatype Books = Books(calls: seq<ToolCall>, decisions: seq<bool>, log: seq<Sent>, buffer: State)

  /** Which calls were let through by session, policy and lease: those that sent something. */
  function Admitted(calls: seq<ToolCall>): seq<bool> {
    if calls == [] then [] else Admitted(calls[..|calls| - 1]) + [calls[|calls| - 1].sent != []]
  }

  lemma {:induction false} AdmittedConcat(a: seq<ToolCall>, b: seq<ToolCall>)
    ensures Admitted(a + b) == Admitted(a) + Admitted(b)
  {
    if b == [] {
      assert a + b == a;
    } else {
      AdmittedConcat(a, b[..|b| - 1]);
      assert (a + b)[..|a + b| - 1] == a + b[..|b| - 1];
      Regroup(Admitted(a), Admitted(b[..|b| - 1]), [b[|b| - 1].sent != []]);
    }
  }

  /**
   From `a` to `b` the calls `made` sent the requests `run`, which lead from one buffer to the
   other; the calls that sent nothing are those the guard refused.
   */
  ghost predicate Adds(a: Books, b: Books, made: seq<ToolCall>, run: seq<Sent>) {
    && b.calls == a.calls + made && SentBy(made) == run && b.log == a.log + run && Chained(a.buffer, run, b.buffer)
    && b.decisions == a.decisions + Admitted(made)
  }

  lemma {:induction false} AddsMore(a: Books, b: Books, c: Books, made: seq<ToolCall>, run: seq<Sent>, more: seq<ToolCall>, seg: seq<Sent>)
    requires Adds(a, b, made, run) && Adds(b, c, more, seg)
    ensures Adds(a, c, made + more, run + seg)
  {
    Regroup(a.calls, made, more);
    AdmittedConcat(made, more);
    Regroup(a.decisions, Admitted(made), Admitted(more));
    SentByConcat(made, more);
    Regroup(a.log, run, seg);
    ChainedConcat(a.buffer, run, b.buffer, seg, c.buffer);
  }

  ghost predicate AddsLooks(a: Books, b: Books, made: seq<ToolCall>, run: seq<Sent>) {
    Adds(a, b, made, run) && NoRollbackCall(made) && AllLooks(run)
  }

  lemma {:induction false} AddsMoreLooks(a: Books, b: Books, c: Books, made: seq<ToolCall>, run: seq<Sent>, more: seq<ToolCall>,
                                         seg: seq<Sent>)
    requires AddsLooks(a, b, made, run) && AddsLooks(b, c, more, seg)
    ensures AddsLooks(a, c, made + more, run + seg)
  {
    AddsMore(a, b, c, made, run, more, seg);
  }

  lemma {:induction false} SentByOne(call: ToolCall)
    ensures SentBy([call]) == call.sent && Admitted([call]) == [call.sent != []]
  {
    assert [call][..0] == [];
  }

  lemma {:induction false} SentByConcat(a: seq<ToolCall>, b: seq<ToolCall>)
    ensures SentBy(a + b) == SentBy(a) + SentBy(b)
  {
    if b == [] {
      assert a + b == a;
    } else {
      SentByConcat(a, b[..|b| - 1]);
      assert (a + b)[..|a + b| - 1] == a + b[..|b| - 1];
      Regroup(SentBy(a), SentBy(b[..|b| - 1]), b[|b| - 1].sent);
    }
  }

  lemma {:induction false} SucceededConcat(a: seq<Sent>, b: seq<Sent>)
    ensures AllSucceeded(a + b) <==> AllSucceeded(a) && AllSucceeded(b)
  {
    var all := a + b;
    if AllSucceeded(all) {
      forall k | 0 <= k < |a| ensures Succeeded(a[k]) { assert all[k] == a[k]; }
      forall k | 0 <= k < |b| ensures Succeeded(b[k]) { assert all[|a| + k] == b[k]; }
    }
  }

  /** Some tool call did not get as far as an answer. */
  ghost predicate SomeFailed(calls: seq<ToolCall>) {
    exists k | 0 <= k < |calls| :: !GotThrough(calls[k])
  }

  lemma {:induction false} FailedConcat(a: seq<ToolCall>, b: seq<ToolCall>)
    ensures SomeFailed(a) || SomeFailed(b) ==> SomeFailed(a + b)
  {
    if SomeFailed(a) {
      var k :| 0 <= k < |a| && !GotThrough(a[k]);
      assert (a + b)[k] == a[k];
    } else if SomeFailed(b) {
      var k :| 0 <= k < |b| && !GotThrough(b[k]);
      assert (a + b)[|a| + k] == b[k];
    }
  }

  /** Calls of phases: none of them rolls back, and their requests leave the checkpoint alone. */
  ghost predicate AddsPhases(a: Books, b: Books, made: seq<ToolCall>, run: seq<Sent>) {
    Adds(a, b, made, run) && NoRollbackCall(made) && NoCheckpoints(run)
  }

  lemma {:induction false} AddsMorePhases(a: Books, b: Books, c: Books, made: seq<ToolCall>, run: seq<Sent>, more: seq<ToolCall>,
                                          seg: seq<Sent>)
    requires AddsPhases(a, b, made, run) && AddsPhases(b, c, more, seg)
    ensures AddsPhases(a, c, made + more, run + seg)
    ensures SomeFailed(more) ==> SomeFailed(made + more)
  {
    AddsMore(a, b, c, made, run, more, seg);
    FailedConcat(made, more);
  }

  /** Why a run is not committed: a call failed, an answer was unusable, or a finding was not accepted. */
  ghost predicate Caused(ending: Ending, made: seq<ToolCall>, unusable: bool, missed: bool, refused: bool) {
    match ending
    case NotStarted => SomeFailed(made) || unusable || missed
    case Committed => true
    case RolledBack => refused
    case Aborted => SomeFailed(made) || unusable
    case RollbackFailed => made != [] && (SomeFailed(made[..|made| - 1]) || unusable || refused)
  }

  lemma {:induction false} CausedLater(ending: Ending, made: seq<ToolCall>, more: seq<ToolCall>, unusable: bool, refused: bool)
    requires more != [] && Caused(ending, more, unusable, false, refused)
    ensures Caused(ending, made + more, unusable, false, refused)
  {
    FailedConcat(made, more);
    FailedConcat(made, more[..|more| - 1]);
    assert (made + more)[..|made + more| - 1] == made + more[..|more| - 1];
  }

  lemma {:induction false} CausedByPhases(progress: Progress, ending: Ending, made: seq<ToolCall>, call: ToolCall, unusable: bool,
                                          refused: bool)
    requires ending in {RolledBack, Aborted, RollbackFailed} && !progress.Completed?
    requires (ending.Aborted? ==> progress.Threw?) && (ending.RolledBack? ==> progress.Rejected?)
    requires if progress.Rejected? then refused else SomeFailed(made) || unusable
    ensures Caused(ending, made + [call], unusable, false, refused)
  {
    FailedConcat(made, [call]);
    assert (made + [call])[..|made|] == made;
  }

  datatype Progress = Completed | Rejected | Threw

  datatype Ending =
    | NotStarted       // an error before the checkpoint was there
    | Committed
    | RolledBack       // the editor's findings were not accepted
    | Aborted          // a step failed, and its error is reported after the rollback
    | RollbackFailed

  /** The main request of a tool call, among the looks it takes around it. */
  ghost predicate IsStep(seg: seq<Sent>, r: Request, at: nat) {
    && (forall k | 0 <= k < |seg| && k != at :: Glance(seg[k].request))
    && (at < |seg| ==> seg[at].request == r)
  }

  lemma {:induction false} MarksNothing(seg: seq<Sent>)
    requires forall k | 0 <= k < |seg| :: !IsCheckpoint(seg[k].request)
    ensures Marks(seg) == []
  {
    if seg != [] {
      assert forall k | 0 <= k < |seg[1..]| :: seg[1..][k] == seg[k + 1];
      MarksNothing(seg[1..]);
    }
  }

  lemma {:induction false} StepMarks(seg: seq<Sent>, r: Request, at: nat)
    requires IsStep(seg, r, at)
    ensures Marks(seg) == if at < |seg| then Mark(r) else []
  {
    if at < |seg| {
      MarksNothing(seg[..at]);
      MarksNothing(seg[at + 1..]);
      MarksConcat(seg[..at], seg[at..]);
      assert seg == seg[..at] + seg[at..] && seg[at..][1..] == seg[at + 1..];
    } else {
      MarksNothing(seg);
    }
  }

  ghost predicate AllLooks(seg: seq<Sent>) {
    forall k | 0 <= k < |seg| :: Glance(seg[k].request) || seg[k].request.Query?
  }

  lemma {:induction false} GlancesConcat(s: State, a: seq<Sent>, u: State, b: seq<Sent>, t: State)
    requires Chained(s, a, u) && AllGlances(a) && Chained(u, b, t) && AllGlances(b)
    ensures Chained(s, a + b, t) && AllGlances(a + b)
  {
    ChainedConcat(s, a, u, b, t);
  }

  lemma {:induction false} LooksConcat(s: State, a: seq<Sent>, u: State, b: seq<Sent>, t: State)
    requires Chained(s, a, u) && AllLooks(a) && Chained(u, b, t) && AllLooks(b)
    ensures Chained(s, a + b, t) && AllLooks(a + b)
  {
    ChainedConcat(s, a, u, b, t);
  }

  lemma {:induction false} StepSoFar(s: State, lead: seq<Sent>, u: State, e: Sent)
    requires Chained(s, lead, u) && AllGlances(lead) && EditedOutside(u, e.before) && Faithful(e)
    ensures Chained(s, lead + [e], e.after) && IsStep(lead + [e], e.request, |lead|)
  {
    ChainOne(u, e);
    ChainedConcat(s, lead, u, [e], e.after);
  }

  lemma {:induction false} StepLookedAfter(s: State, seg: seq<Sent>, u: State, look: seq<Sent>, t: State, r: Request, at: nat)
    requires Chained(s, seg, u) && IsStep(seg, r, at) && at < |seg| && Chained(u, look, t) && AllGlances(look)
    ensures Chained(s, seg + look, t) && IsStep(seg + look, r, at)
  {
    ChainedConcat(s, seg, u, look, t);
  }

  /** What decides over the router's calls, and the answers it has to work with. */
  class Guard {
    ghost var decisions: seq<bool>
    ghost var unusable: bool

    constructor ()
      ensures decisions == [] && !unusable
    {
      decisions, unusable := [], false;
    }

    /** Session, policy and lease admit a call or refuse it. */
    method Admits(r: Request) returns (ok: bool)
      modifies this`decisions
      ensures decisions == old(decisions) + [ok]
    {
      ok := *;
      decisions := decisions + [ok];
    }

    /** An answer may lack what the workflow needs to go on; that is an error of its own, and on record. */
    method Usable() returns (ok: bool)
      modifies this`unusable
      ensures if ok then unusable == old(unusable) else unusable
    {
      ok := *;
      if !ok { unusable := true; }
    }

    /** The request of a phase, made from the caller's arguments and earlier answers. */
    method Compose(p: Phase) returns (r: Option<Request>)
      modifies this`unusable
      ensures if r.Some? then Makes(p, r.value) && unusable == old(unusable) else unusable
    {
      var request: Request := *;
      var ok := Usable();
      if ok && Makes(p, request) { return Some(request); }
      unusable := true;
      return None;
    }
  }

  /** The router, with every tool call made so far. */
  class Router {
    const editor: Editor
    const guard: Guard
    ghost var calls: seq<ToolCall>

    constructor (editor: Editor, guard: Guard)
      ensures this.editor == editor && this.guard == guard && calls == []
    {
      this.editor, this.guard := editor, guard;
      calls := [];
    }

    function Buffer(): State
      reads editor.bridge
    {
      editor.bridge.CurrentState()
    }

    ghost function Record(): Books
      reads this, guard, editor, editor.bridge
    {
      Books(calls, guard.decisions, editor.log, Buffer())
    }

    /** A look at the buffer. */
    method Look(r: Request) returns (ok: bool, ghost seg: seq<Sent>)
      requires Glance(r)
      modifies editor, editor.bridge
      ensures editor.log == old(editor.log) + seg && Chained(old(Buffer()), seg, Buffer()) && AllGlances(seg)
      ensures |seg| == 1 && (ok <==> AllSucceeded(seg))
    {
      var answer, e := editor.Send(r);
      ChainOne(old(Buffer()), e);
      seg := [e];
      ok := answer.Some? && !answer.value.reply.Failed?;
    }

    /** What a tool call looks at before its main request; a diff edit reads the whole buffer. */
    method Lead(r: Request) returns (ok: bool, ghost seg: seq<Sent>)
      modifies editor, editor.bridge
      ensures editor.log == old(editor.log) + seg && Chained(old(Buffer()), seg, Buffer()) && AllGlances(seg)
      ensures ok <==> AllSucceeded(seg)
      ensures seg == [] <==> r.Query?
    {
      if r.Query? { return true, []; }
      ok, seg := Look(Observe);
      var diff: bool := *;
      if ok && r.EditApply? && diff {
        ghost var s, first := Buffer(), seg;
        ok, seg := Look(ReadResource(None, None));
        GlancesConcat(old(Buffer()), first, s, seg, Buffer());
        Regroup(old(editor.log), first, seg);
        SucceededConcat(first, seg);
        seg := first + seg;
      }
    }

    /** One tool call: session, policy and lease may refuse it, and any of its requests may fail. */
    method Step(r: Request) returns (answer: Option<Answer>, ghost seg: seq<Sent>, ghost at: nat)
      modifies this`calls, guard`decisions, editor, editor.bridge
      ensures Adds(old(Record()), Record(), [ToolCall(r, seg)], seg)
      ensures IsStep(seg, r, at)
      ensures answer.Some? <==> GotThrough(ToolCall(r, seg))
      ensures answer.Some? ==> at < |seg| && Succeeded(seg[at]) && seg[at].answer == answer
      ensures answer.Some? && r.CreateCheckpoint? ==> at == |seg| - 1
    {
      answer := None;
      seg, at := [], 0;
      var admitted := guard.Admits(r);
      if admitted { answer, seg, at := Request(r); }
      calls := calls + [ToolCall(r, seg)];
      SentByOne(ToolCall(r, seg));
    }

    /** The requests of a tool call that was not refused. */
    method Request(r: Request) returns (answer: Option<Answer>, ghost seg: seq<Sent>, ghost at: nat)
      modifies editor, editor.bridge
      ensures editor.log == old(editor.log) + seg && Chained(old(Buffer()), seg, Buffer())
      ensures IsStep(seg, r, at)
      ensures seg != [] && (answer.Some? <==> AllSucceeded(seg))
      ensures answer.Some? ==> at < |seg| && Succeeded(seg[at]) && seg[at].answer == answer
      ensures answer.Some? && r.CreateCheckpoint? ==> at == |seg| - 1
    {
      answer := None;
      var ok: bool;
      ok, seg := Lead(r);
      at := |seg|;
      if !ok { return; }
      ghost var s := Buffer();
      var heard, e := editor.Send(r);
      StepSoFar(old(Buffer()), seg, s, e);
      Regroup(old(editor.log), seg, [e]);
      SucceededConcat(seg, [e]);
      seg := seg + [e];
      if heard.None? || heard.value.reply.Failed? {
        assert !Succeeded(seg[at]);
        return;
      }
      if !r.Query? && !r.CreateCheckpoint? {
        s := Buffer();
        var seen, look := Look(Observe);
        StepLookedAfter(old(Buffer()), seg, s, look, Buffer(), r, at);
        Regroup(old(editor.log), seg, look);
        SucceededConcat(seg, look);
        seg := seg + look;
        if !seen { return; }
      }
      answer := heard;
    }

    /** One phase: a failing step throws, an answer the workflow does not accept rejects the proposal. */
    method RunPhase(p: Phase) returns (progress: Progress, ghost seg: seq<Sent>, ghost at: nat, ghost made: seq<ToolCall>)
      modifies this`calls, guard, editor, editor.bridge
      ensures AddsPhases(old(Record()), Record(), made, seg)
      ensures progress.Completed? ==> IsPhase(p, seg, at)
      ensures progress.Rejected? ==> IsRefusal(p, seg, at)
      ensures progress.Threw? ==> SomeFailed(made) || guard.unusable
      ensures old(guard.unusable) ==> guard.unusable
    {
      var r := guard.Compose(p);
      if r.None? { return Threw, [], 0, []; }
      var answer;
      answer, seg, at := Step(r.value);
      made := [ToolCall(r.value, seg)];
      PhaseIsClean(p, r.value, seg, at);
      PhaseEnds(p, r.value, seg, at, answer);
      if answer.None? { return Threw, seg, at, made; }
      progress := if Accepts(p, answer.value.findings) then Completed else Rejected;
    }

    method RunPhases(script: seq<Phase>)
      returns (progress: Progress, ghost run: seq<Sent>, ghost at: seq<nat>, ghost r: nat, ghost made: seq<ToolCall>)
      modifies this`calls, guard, editor, editor.bridge
      ensures AddsPhases(old(Record()), Record(), made, run)
      ensures progress.Completed? ==> Follows(script, run, at)
      ensures progress.Rejected? ==> Refuses(script, run, at, r)
      ensures progress.Threw? ==> SomeFailed(made) || guard.unusable
      ensures old(guard.unusable) ==> guard.unusable
    {
      run, at, r, made, progress := [], [], 0, [], Completed;
      for i := 0 to |script|
        invariant AddsPhases(old(Record()), Record(), made, run)
        invariant progress.Completed? && Follows(script[..i], run, at) && (old(guard.unusable) ==> guard.unusable)
      {
        ghost var before := Record();
        ghost var seg, a, more;
        progress, seg, a, more := RunPhase(script[i]);
        AddsMorePhases(old(Record()), before, Record(), made, run, more, seg);
        if progress.Completed? {
          at := FollowsOneMore(script, i, run, at, seg, a);
        } else if progress.Rejected? {
          RefusesNext(script, i, run, at, seg, a);
          r := |run| + a;
        }
        run, made := run + seg, made + more;
        if !progress.Completed? { return; }
      }
      assert script[..|script|] == script;
    }

    /** One look before the transaction, which may have to find a name. */
    method LookOnce(insists: bool) returns (ok: bool, ghost look: seq<Sent>, ghost made: seq<ToolCall>)
      modifies this`calls, guard, editor, editor.bridge
      ensures AddsLooks(old(Record()), Record(), made, look) && Concludes(NotStarted, made)
      ensures ok ==> Looked([insists], look)
      ensures !ok ==> SomeFailed(made) || guard.unusable || (insists && Missed(look))
      ensures old(guard.unusable) ==> guard.unusable
    {
      var found, seg, a := Step(Query);
      QueryIsPassive(seg, a);
      look, made := seg, [ToolCall(Query, seg)];
      if found.None? {
        assert !GotThrough(made[0]);
        return false, look, made;
      }
      QueryFound(seg, a);
      ok := guard.Usable();
      if insists && !found.value.findings.named { ok := false; }
    }

    /** The looks before the transaction; any of them may end the run. */
    method LookFirst(looks: seq<bool>) returns (ok: bool, ghost run: seq<Sent>, ghost made: seq<ToolCall>)
      modifies this`calls, guard, editor, editor.bridge
      ensures AddsLooks(old(Record()), Record(), made, run)
      ensures ok ==> Looked(looks, run)
      ensures !ok ==> Concludes(NotStarted, made) && (SomeFailed(made) || guard.unusable || MissedIn(looks, run))
      ensures old(guard.unusable) ==> guard.unusable
    {
      ok, run, made := true, [], [];
      NothingLooked();
      for i := 0 to |looks|
        invariant ok && AddsLooks(old(Record()), Record(), made, run) && Looked(looks[..i], run) && (old(guard.unusable) ==> guard.unusable)
      {
        ghost var before := Record();
        ghost var look, more;
        ok, look, more := LookOnce(looks[i]);
        AddsMoreLooks(old(Record()), before, Record(), made, run, more, look);
        FailedConcat(made, more);
        if ok {
          LookedMore(looks, i, run, look);
        } else {
          CallsInFront(NotStarted, made, more);
          if looks[i] && Missed(look) { MissedLater(looks, i, run, look); }
        }
        run, made := run + look, made + more;
        if !ok { return; }
      }
      assert looks[..|looks|] == looks;
    }

    /** The looks before the transaction and the creation of its checkpoint. */
    method Prepare(looks: seq<bool>) returns (ok: bool, ghost run: seq<Sent>, ghost made: seq<ToolCall>)
      modifies this`calls, guard, editor, editor.bridge
      ensures Adds(old(Record()), Record(), made, run) && NoRollbackCall(made)
      ensures ok ==> Prepared(run) && Looked(looks, run)
      ensures !ok ==> Concludes(NotStarted, made) && KeepsText(run) && (Marks(run) == [] || Marks(run) == [CreateCheckpoint])
      ensures !ok ==> SomeFailed(made) || guard.unusable || MissedIn(looks, run)
      ensures old(guard.unusable) ==> guard.unusable
    {
      ok, run, made := LookFirst(looks);
      ghost var before := Record();
      if !ok {
        NothingHappened(old(Buffer()), run, before.buffer);
        return;
      }
      ghost var seg;
      ok, seg := Create(old(Buffer()), run);
      ghost var call := ToolCall(CreateCheckpoint, seg);
      if !ok { OneLastCall(NotStarted, made, call); }
      AddsMore(old(Record()), before, Record(), made, run, [call], seg);
      LastFails(made, call);
      LookedThen(looks, run, seg);
      run, made := run + seg, made + [call];
    }

    /** The creation of the checkpoint behind the looks in `run`. */
    method Create(ghost s0: State, ghost run: seq<Sent>) returns (ok: bool, ghost seg: seq<Sent>)
      requires Chained(s0, run, Buffer()) && AllLooks(run)
      modifies this`calls, guard`decisions, editor, editor.bridge
      ensures Adds(old(Record()), Record(), [ToolCall(CreateCheckpoint, seg)], seg)
      ensures ok <==> GotThrough(ToolCall(CreateCheckpoint, seg))
      ensures PicksNothing(seg)
      ensures ok ==> Prepared(run + seg)
      ensures !ok ==> KeepsText(run + seg) && (Marks(run + seg) == [] || Marks(run + seg) == [CreateCheckpoint])
    {
      var answer, sent, at := Step(CreateCheckpoint);
      seg, ok := sent, answer.Some?;
      CreationTried(s0, run, old(Buffer()), seg, Buffer(), at);
      StepPicksNothing(seg, CreateCheckpoint, at);
      if ok { CreationDone(run, seg, at); }
    }

    /** The commit behind the fulfilled phases in `body`. */
    method Commit(script: seq<Phase>, ghost body: seq<Sent>, ghost at: seq<nat>) returns (progress: Progress, ghost seg: seq<Sent>)
      requires Follows(script, body, at) && NoCheckpoints(body)
      modifies this`calls, guard`decisions, editor, editor.bridge
      ensures Adds(old(Record()), Record(), [ToolCall(CommitCheckpoint, seg)], seg)
      ensures progress == if GotThrough(ToolCall(CommitCheckpoint, seg)) then Completed else Threw
      ensures Tried(progress, script, body + seg, at, 0)
    {
      var answer, sent, c := Step(CommitCheckpoint);
      seg, progress := sent, if answer.Some? then Completed else Threw;
      CommitTried(body, seg, c);
      CommitDoesNotRestart(body, seg, c);
      if answer.Some? { CommittedRun(script, body, at, seg, c); }
    }

    /** The guarded part: the phases and the commit. */
    method TryPhases(script: seq<Phase>)
      returns (progress: Progress, ghost body: seq<Sent>, ghost at: seq<nat>, ghost r: nat, ghost made: seq<ToolCall>)
      modifies this`calls, guard, editor, editor.bridge
      ensures Adds(old(Record()), Record(), made, body) && NoRollbackCall(made)
      ensures Tried(progress, script, body, at, r) && (progress.Completed? ==> Concludes(Committed, made))
      ensures progress.Threw? ==> SomeFailed(made) || guard.unusable
      ensures old(guard.unusable) ==> guard.unusable
    {
      progress, body, at, r, made := RunPhases(script);
      MarksNothing(body);
      if !progress.Completed? { return; }
      ghost var before := Record();
      ghost var seg;
      progress, seg := Commit(script, body, at);
      ghost var call := ToolCall(CommitCheckpoint, seg);
      AddsMore(old(Record()), before, Record(), made, body, [call], seg);
      LastFails(made, call);
      if progress.Completed? { OneLastCall(Committed, made, call); }
      body, r, made := body + seg, 0, made + [call];
    }

    /** The transaction of a workflow: `looks` before it, then a checkpoint, the phases, and the end it comes to. */
    method RunTransaction(looks: seq<bool>, script: seq<Phase>)
      returns (ending: Ending, ghost run: seq<Sent>, ghost pre: seq<Sent>, ghost body: seq<Sent>, ghost at: seq<nat>, ghost r: nat,
               ghost made: seq<ToolCall>)
      modifies this`calls, guard, editor, editor.bridge
      ensures Adds(old(Record()), Record(), made, run) && Concludes(ending, made)
      ensures Ended(ending, script, run, pre, body, at, r)
      ensures Caused(ending, made, guard.unusable, MissedIn(looks, run), RefusedIn(script, body, at, r))
      ensures !ending.NotStarted? ==> Looked(looks, pre)
    {
      var ok;
      ok, pre, made := Prepare(looks);
      if !ok {
        NeverStarted(script, pre);
        return NotStarted, pre, pre, [], [], 0, made;
      }
      ghost var prepared := Record();
      ghost var more;
      ending, body, at, r, more := RunPrepared(script, old(Buffer()), pre);
      AddsMore(old(Record()), prepared, Record(), made, pre, more, body);
      CallsInFront(ending, made, more);
      CausedLater(ending, made, more, guard.unusable, RefusedIn(script, body, at, r));
      run, made := pre + body, made + more;
    }

    /** The transaction once its checkpoint is there. */
    method RunPrepared(script: seq<Phase>, ghost s0: State, ghost pre: seq<Sent>)
      returns (ending: Ending, ghost body: seq<Sent>, ghost at: seq<nat>, ghost r: nat, ghost made: seq<ToolCall>)
      requires Chained(s0, pre, Buffer()) && Prepared(pre)
      modifies this`calls, guard, editor, editor.bridge
      ensures Adds(old(Record()), Record(), made, body) && !ending.NotStarted? && Concludes(ending, made)
      ensures Ended(ending, script, pre + body, pre, body, at, r)
      ensures Caused(ending, made, guard.unusable, false, RefusedIn(script, body, at, r))
    {
      var progress;
      progress, body, at, r, made := TryPhases(script);
      if progress.Completed? {
        EndedByCommit(script, pre, body, at, r);
        return Committed, body, at, r, made;
      }
      ghost var before, seg := Record(), [];
      ending, seg := RollBack(progress, script, s0, pre, old(Buffer()), body, at, r);
      ghost var call := ToolCall(RollbackCheckpoint, seg);
      AddsMore(old(Record()), before, Record(), made, body, [call], seg);
      OneLastCall(ending, made, call);
      CausedByPhases(progress, ending, made, call, guard.unusable, RefusedIn(script, body + seg, at, r));
      body, made := body + seg, made + [call];
    }

    /** The one attempt to roll back, and what is reported then. */
    method RollBack(progress: Progress, script: seq<Phase>, ghost s0: State, ghost pre: seq<Sent>, ghost s1: State,
                    ghost body: seq<Sent>, ghost at: seq<nat>, ghost refused: nat)
      returns (ending: Ending, ghost seg: seq<Sent>)
      requires Chained(s0, pre, s1) && Prepared(pre) && Chained(s1, body, Buffer())
      requires Tried(progress, script, body, at, refused) && !progress.Completed?
      modifies this`calls, guard`decisions, editor, editor.bridge
      ensures Adds(old(Record()), Record(), [ToolCall(RollbackCheckpoint, seg)], seg)
      ensures ending == if !GotThrough(ToolCall(RollbackCheckpoint, seg)) then RollbackFailed
                        else if progress.Rejected? then RolledBack else Aborted
      ensures progress.Rejected? ==> RefusedIn(script, body + seg, at, refused)
      ensures Ended(ending, script, pre + (body + seg), pre, body + seg, at, refused)
    {
      var answer, sent, r := Step(RollbackCheckpoint);
      seg := sent;
      ending := if answer.None? then RollbackFailed else if progress.Rejected? then RolledBack else Aborted;
      if progress.Rejected? { RefusedThenUndone(script, body, at, refused, seg, r); }
      EndedByRollback(progress, ending, script, s0, pre, s1, body, at, refused, old(Buffer()), seg, Buffer(), r);
    }

    /**
     The workflow tool. A committed run did what was asked for and found it as expected; it was
     validated: after the validation at `v` no request of the router changed the text, and nothing
     was evaluated before it. A run that was rolled back has the checkpoint's text, and shows the
     finding it was refused for. A run whose rollback failed made one rollback call and did not hear
     that it worked. No run ends short of its commit without a cause: a finding that was not as
     asked for, a tool call that did not get through, or an answer that could not be used.
     */
    method ExecuteSemanticWorkflow(w: Workflow) returns (ending: Ending, ghost run: seq<Sent>, ghost v: nat, ghost made: seq<ToolCall>)
      modifies this`calls, guard, editor, editor.bridge
      ensures Adds(old(Record()), Record(), made, run) && Concludes(ending, made)
      ensures Settled(ending, Script(w), run, v)
      ensures ending.Committed? ==> Honoured(w, run) && CheckedBehind(w, run, v)
      ensures ending.RolledBack? ==> Declined(w, run)
      ensures ending.NotStarted? ==> SomeFailed(made) || guard.unusable || Misnamed(w, run)
      ensures ending.Aborted? ==> SomeFailed(made) || guard.unusable
      ensures ending.RollbackFailed? ==> SomeFailed(made[..|made| - 1]) || guard.unusable || Declined(w, run)
    {
      ghost var pre, body, at, r;
      ending, run, pre, body, at, r, made := RunTransaction(Looks(w), Script(w));
      v := 0;
      if ending.Committed? {
        v := CommittedHonours(old(Buffer()), w, run, pre, body, at, r, Buffer());
      } else {
        EndedIsSettled(ending, Script(w), run, pre, body, at, r);
        if ending.NotStarted? {
          if MissedIn(Looks(w), run) { MissedIsMisnamed(w, run); }
        } else if RefusedIn(Script(w), body, at, r) {
          RefusedDeclines(w, run, pre, body, at, r);
        }
      }
    }
  }

  // ---------------------------------------------------------------- how the pieces of a run fit

  ghost predicate NoCheckpoints(run: seq<Sent>) {
    forall k | 0 <= k < |run| :: !IsCheckpoint(run[k].request)
  }

  /** A fulfilled phase among looks. */
  ghost predicate IsPhase(p: Phase, seg: seq<Sent>, at: nat) {
    at < |seg| && Fulfilled(p, seg[at]) && IsStep(seg, seg[at].request, at)
  }

  /** A refused phase among looks. */
  ghost predicate IsRefusal(p: Phase, seg: seq<Sent>, at: nat) {
    at < |seg| && RefusedPhase(p, seg[at]) && IsStep(seg, seg[at].request, at)
  }

  /** The look found another name. */
  ghost predicate Missed(look: seq<Sent>) {
    var es := Picked(look, Asking);
    |es| == 1 && Succeeded(es[0]) && !es[0].answer.value.findings.named
  }

  /** The last of the looks so far insisted on a name and found another one. */
  ghost predicate MissedIn(looks: seq<bool>, run: seq<Sent>) {
    var es := Picked(run, Asking);
    && 0 < |es| <= |looks| && AllAsNamed(es[..|es| - 1], looks[..|es| - 1])
    && Succeeded(es[|es| - 1]) && looks[|es| - 1] && !es[|es| - 1].answer.value.findings.named
  }

  /** A phase refused what it met, and after that nothing was asked for any more. */
  ghost predicate RefusedIn(script: seq<Phase>, body: seq<Sent>, at: seq<nat>, r: nat) {
    exists n: nat | n <= |body| :: Refuses(script, body[..n], at, r) && PicksNothing(body[n..])
  }

  /** Looks, and then a checkpoint. */
  ghost predicate Prepared(run: seq<Sent>) {
    && run != [] && AllLooks(run[..|run| - 1])
    && run[|run| - 1].request == CreateCheckpoint && Succeeded(run[|run| - 1])
  }

  /** What the answer to a phase's call makes of it. */
  lemma {:induction false} PhaseEnds(p: Phase, r: Request, seg: seq<Sent>, at: nat, answer: Option<Answer>)
    requires Makes(p, r) && IsStep(seg, r, at) && (answer.Some? <==> GotThrough(ToolCall(r, seg)))
    requires answer.Some? ==> at < |seg| && Succeeded(seg[at]) && seg[at].answer == answer
    ensures answer.None? ==> SomeFailed([ToolCall(r, seg)])
    ensures answer.Some? ==> if Accepts(p, answer.value.findings) then IsPhase(p, seg, at) else IsRefusal(p, seg, at)
  {
    assert [ToolCall(r, seg)][0] == ToolCall(r, seg);
  }

  lemma {:induction false} PhaseIsClean(p: Phase, r: Request, seg: seq<Sent>, at: nat)
    requires Makes(p, r) && IsStep(seg, r, at)
    ensures NoCheckpoints(seg) && r != RollbackCheckpoint
  {
    assert !IsCheckpoint(r);
  }

  lemma {:induction false} QueryIsPassive(seg: seq<Sent>, at: nat)
    requires IsStep(seg, Query, at)
    ensures AllLooks(seg)
  {}

  lemma {:induction false} QueryFound(seg: seq<Sent>, at: nat)
    requires IsStep(seg, Query, at) && at < |seg| && Succeeded(seg[at])
    ensures Picked(seg, Asking) == [seg[at]] && Looked([false], seg) && (seg[at].answer.value.findings.named ==> Looked([true], seg))
    ensures !seg[at].answer.value.findings.named ==> Missed(seg)
  {
    assert seg == seg[..at] + [seg[at]] + seg[at + 1..];
    forall kind ensures Picked(seg, kind) == if kind == Asking then [seg[at]] else [] {
      PickedWith(seg[..at], seg[at], seg[at + 1..], kind);
      GlancesPickNothing(seg[..at], kind);
    }
  }

  lemma {:induction false} NothingLooked()
    ensures Looked([], [])
  {}

  lemma {:induction false} LookedMore(looks: seq<bool>, i: nat, run: seq<Sent>, look: seq<Sent>)
    requires i < |looks| && Looked(looks[..i], run) && Looked([looks[i]], look)
    ensures Looked(looks[..i + 1], run + look)
  {
    forall kind | kind != Asking ensures Picked(run + look, kind) == [] { PickedConcat(run, look, kind); }
    PickedConcat(run, look, Asking);
  }

  lemma {:induction false} MissedLater(looks: seq<bool>, i: nat, run: seq<Sent>, look: seq<Sent>)
    requires i < |looks| && looks[i] && Looked(looks[..i], run) && Missed(look)
    ensures MissedIn(looks, run + look)
  {
    PickedConcat(run, look, Asking);
    assert Picked(run + look, Asking)[..i] == Picked(run, Asking);
  }

  lemma {:induction false} LookedThen(looks: seq<bool>, run: seq<Sent>, seg: seq<Sent>)
    requires Looked(looks, run) && PicksNothing(seg)
    ensures Looked(looks, run + seg)
  {
    forall kind | kind != Asking ensures Picked(run + seg, kind) == [] { PickedConcat(run, seg, kind); }
    PickedConcat(run, seg, Asking);
  }

  lemma {:induction false} StepPicksNothing(seg: seq<Sent>, r: Request, at: nat)
    requires IsStep(seg, r, at) && IsCheckpoint(r)
    ensures PicksNothing(seg)
  {
    forall kind ensures Picked(seg, kind) == [] { NothingPicked(seg, kind); }
  }

  lemma {:induction false} LastFails(calls: seq<ToolCall>, call: ToolCall)
    ensures !GotThrough(call) ==> SomeFailed(calls + [call])
  {
    assert (calls + [call])[|calls|] == call;
  }

  lemma {:induction false} CallsInFront(ending: Ending, made: seq<ToolCall>, more: seq<ToolCall>)
    requires NoRollbackCall(made) && Concludes(ending, more)
    ensures Concludes(ending, made + more)
  {
    var all := made + more;
    if more != [] { assert all[..|all| - 1] == made + more[..|more| - 1] && all[|all| - 1] == more[|more| - 1]; }
  }

  lemma {:induction false} OneLastCall(ending: Ending, made: seq<ToolCall>, call: ToolCall)
    requires NoRollbackCall(made) && Concludes(ending, [call])
    ensures Concludes(ending, made + [call])
  {
    CallsInFront(ending, made, [call]);
  }

  lemma {:induction false} FollowsOneMore(script: seq<Phase>, i: nat, run: seq<Sent>, at: seq<nat>, seg: seq<Sent>, a: nat)
    returns (places: seq<nat>)
    requires i < |script| && Follows(script[..i], run, at) && IsPhase(script[i], seg, a)
    ensures Follows(script[..i + 1], run + seg, places)
  {
    var all, n := run + seg, |run|;
    places := at + [n + a];
    forall k | 0 <= k < |places| ensures places[k] < |all| && Fulfilled(script[..i + 1][k], all[places[k]]) {
      if k < i { assert Fulfilled(script[..i][k], run[at[k]]); }
    }
    forall j | 0 <= j < |all| && j !in places ensures Glance(all[j].request) {
      assert places[i] == n + a;
    }
  }

  lemma {:induction false} RefusesNext(script: seq<Phase>, i: nat, run: seq<Sent>, at: seq<nat>, seg: seq<Sent>, a: nat)
    requires i < |script| && Follows(script[..i], run, at) && IsRefusal(script[i], seg, a)
    ensures Refuses(script, run + seg, at, |run| + a)
  {
    var all, r := run + seg, |run| + a;
    assert all[..r] == run + seg[..a] && all[r] == seg[a] && all[r + 1..] == seg[a + 1..];
    FollowsMore(script[..i], run, at, seg[..a]);
  }

  lemma {:induction false} PassiveRunKeepsText(s: State, run: seq<Sent>, t: State)
    requires Chained(s, run, t) && forall k | 0 <= k < |run| :: Passive(run[k].request) || run[k].request.CreateCheckpoint?
    ensures KeepsText(run)
    decreases |run|
  {
    if run != [] {
      PassiveKeepsText(run[0]);
      assert forall k | 0 <= k < |run[1..]| :: run[1..][k] == run[k + 1];
      PassiveRunKeepsText(run[0].after, run[1..], t);
      assert forall k | 0 < k < |run| :: run[k] == run[1..][k - 1];
    }
  }

  lemma {:induction false} NothingHappened(s: State, run: seq<Sent>, t: State)
    requires Chained(s, run, t) && AllLooks(run)
    ensures KeepsText(run) && Marks(run) == []
  {
    PassiveRunKeepsText(s, run, t);
    MarksNothing(run);
  }

  lemma {:induction false} CreationTried(s: State, run: seq<Sent>, u: State, seg: seq<Sent>, t: State, at: nat)
    requires Chained(s, run, u) && AllLooks(run) && Chained(u, seg, t) && IsStep(seg, CreateCheckpoint, at)
    ensures Chained(s, run + seg, t) && KeepsText(run + seg)
    ensures Marks(run + seg) == [] || Marks(run + seg) == [CreateCheckpoint]
  {
    ChainedConcat(s, run, u, seg, t);
    PassiveRunKeepsText(s, run + seg, t);
    MarksConcat(run, seg);
    MarksNothing(run);
    StepMarks(seg, CreateCheckpoint, at);
  }

  lemma {:induction false} CreationDone(run: seq<Sent>, seg: seq<Sent>, at: nat)
    requires AllLooks(run) && IsStep(seg, CreateCheckpoint, at) && at == |seg| - 1 && Succeeded(seg[at])
    ensures Prepared(run + seg)
  {}

  // ---------------------------------------------------------------- the endings

  /** A checkpoint, and perhaps a commit whose answer was lost. */
  ghost predicate OneTry(marks: seq<Request>) {
    marks == [CreateCheckpoint] || marks == [CreateCheckpoint, CommitCheckpoint]
  }

  /** The same with one rollback at the end. */
  ghost predicate OneTryUndone(marks: seq<Request>) {
    marks == [CreateCheckpoint, RollbackCheckpoint] || marks == [CreateCheckpoint, CommitCheckpoint, RollbackCheckpoint]
  }

  /**
   How a run ended: `pre` leads up to the checkpoint, `body` is everything after it, and
   `at` are the places in `body` of the phases' own requests.
   */
  ghost predicate Ended(ending: Ending, script: seq<Phase>, run: seq<Sent>, pre: seq<Sent>, body: seq<Sent>, at: seq<nat>, r: nat) {
    && run == pre + body
    && match ending
       case NotStarted => KeepsText(run) && (Marks(run) == [] || Marks(run) == [CreateCheckpoint])
       case Committed =>
         && Prepared(pre) && Marks(run) == [CreateCheckpoint, CommitCheckpoint]
         && exists c :: CommitsAt(script, body, at, c)
       case RolledBack =>
         && Prepared(pre) && Marks(run) == [CreateCheckpoint, RollbackCheckpoint] && RefusedIn(script, body, at, r)
         && exists u :: RestoresAt(pre, body, u)
       case Aborted =>
         Prepared(pre) && OneTryUndone(Marks(run)) && exists u :: RestoresAt(pre, body, u)
       case RollbackFailed =>
         && Prepared(pre) && (OneTry(Marks(run)) || OneTryUndone(Marks(run)))
         && forall u: nat | Undone(body, u) :: RestoresAt(pre, body, u)
  }

  /** The rollback was answered, whatever became of the look behind it. */
  ghost predicate Undone(body: seq<Sent>, r: nat) {
    r < |body| && body[r].request == RollbackCheckpoint && Succeeded(body[r])
  }

  /** All phases were fulfilled, then the checkpoint was committed, and after that only looks. */
  ghost predicate CommitsAt(script: seq<Phase>, body: seq<Sent>, at: seq<nat>, c: nat) {
    && c < |body| && body[c].request == CommitCheckpoint && Succeeded(body[c])
    && Follows(script, body[..c], at) && AllGlances(body[c + 1..])
  }

  /** The rollback left the text of the checkpoint, and after that came only looks. */
  ghost predicate RestoresAt(pre: seq<Sent>, body: seq<Sent>, r: nat) {
    && pre != [] && r < |body| && body[r].request == RollbackCheckpoint && Succeeded(body[r])
    && body[r].after.text == pre[|pre| - 1].before.text && AllGlances(body[r + 1..])
  }

  ghost predicate NoRestart(run: seq<Sent>) {
    forall k | 0 <= k < |run| :: !run[k].request.CreateCheckpoint? && !run[k].request.RollbackCheckpoint?
  }

  lemma {:induction false} CommitDoesNotRestart(body: seq<Sent>, seg: seq<Sent>, at: nat)
    requires NoCheckpoints(body) && IsStep(seg, CommitCheckpoint, at)
    ensures NoRestart(body + seg)
  {}

  /** What the guarded part may have done. */
  ghost predicate Tried(progress: Progress, script: seq<Phase>, body: seq<Sent>, at: seq<nat>, r: nat) {
    && NoRestart(body)
    && match progress
       case Completed => Marks(body) == [CommitCheckpoint] && exists c :: CommitsAt(script, body, at, c)
       case Rejected => Marks(body) == [] && Refuses(script, body, at, r)
       case Threw => Marks(body) == [] || Marks(body) == [CommitCheckpoint]
  }

  lemma {:induction false} PreparedMarks(pre: seq<Sent>)
    requires Prepared(pre)
    ensures Marks(pre) == [CreateCheckpoint]
  {
    var looks, last := pre[..|pre| - 1], [pre[|pre| - 1]];
    assert pre == looks + last;
    MarksConcat(looks, last);
    MarksNothing(looks);
    assert last[1..] == [];
  }

  lemma {:induction false} BodyMarks(pre: seq<Sent>, body: seq<Sent>)
    requires Prepared(pre)
    ensures Marks(pre + body) == [CreateCheckpoint] + Marks(body)
  {
    PreparedMarks(pre);
    MarksConcat(pre, body);
  }

  lemma {:induction false} CommitTried(body: seq<Sent>, seg: seq<Sent>, at: nat)
    requires NoCheckpoints(body) && IsStep(seg, CommitCheckpoint, at)
    ensures Marks(body + seg) == if at < |seg| then [CommitCheckpoint] else []
  {
    MarksConcat(body, seg);
    MarksNothing(body);
    StepMarks(seg, CommitCheckpoint, at);
  }

  lemma {:induction false} RollbackMarks(pre: seq<Sent>, body: seq<Sent>, seg: seq<Sent>, at: nat)
    requires Prepared(pre) && (Marks(body) == [] || Marks(body) == [CommitCheckpoint]) && IsStep(seg, RollbackCheckpoint, at)
    ensures var marks := Marks(pre + body + seg);
            && (if at < |seg| then OneTryUndone(marks) else OneTry(marks))
            && (at < |seg| && Marks(body) == [] ==> marks == [CreateCheckpoint, RollbackCheckpoint])
  {
    BodyMarks(pre, body);
    MarksConcat(pre + body, seg);
    StepMarks(seg, RollbackCheckpoint, at);
  }

  lemma {:induction false} NeverStarted(script: seq<Phase>, pre: seq<Sent>)
    requires KeepsText(pre) && (Marks(pre) == [] || Marks(pre) == [CreateCheckpoint])
    ensures Ended(NotStarted, script, pre, pre, [], [], 0)
  {
    assert pre == pre + [];
  }

  lemma {:induction false} EndedByCommit(script: seq<Phase>, pre: seq<Sent>, body: seq<Sent>, at: seq<nat>, r: nat)
    requires Prepared(pre) && Tried(Completed, script, body, at, r)
    ensures Ended(Committed, script, pre + body, pre, body, at, r)
  {
    BodyMarks(pre, body);
  }

  lemma {:induction false} RefusedThenUndone(script: seq<Phase>, body: seq<Sent>, at: seq<nat>, r: nat, seg: seq<Sent>, u: nat)
    requires Refuses(script, body, at, r) && IsStep(seg, RollbackCheckpoint, u)
    ensures RefusedIn(script, body + seg, at, r)
  {
    StepPicksNothing(seg, RollbackCheckpoint, u);
    assert (body + seg)[..|body|] == body && (body + seg)[|body|..] == seg;
  }

  lemma {:induction false} EndedByRollback(progress: Progress, ending: Ending, script: seq<Phase>, s0: State, pre: seq<Sent>, s1: State,
                                           body: seq<Sent>, at: seq<nat>, refused: nat, s2: State, seg: seq<Sent>, t: State, r: nat)
    requires Chained(s0, pre, s1) && Prepared(pre) && Chained(s1, body, s2) && Chained(s2, seg, t)
    requires Tried(progress, script, body, at, refused) && !progress.Completed? && IsStep(seg, RollbackCheckpoint, r)
    requires progress.Rejected? ==> RefusedIn(script, body + seg, at, refused)
    requires !ending.NotStarted? && !ending.Committed?
    requires !ending.RollbackFailed? ==> r < |seg| && Succeeded(seg[r]) && ending == if progress.Rejected? then RolledBack else Aborted
    ensures Ended(ending, script, pre + (body + seg), pre, body + seg, at, refused)
  {
    RollbackMarks(pre, body, seg, r);
    Regroup(pre, body, seg);
    if r < |seg| && Succeeded(seg[r]) { RolledBackRun(s0, pre, s1, body, s2, seg, t, r); }
    forall i: nat | Undone(body + seg, i) ensures RestoresAt(pre, body + seg, i) { OnlyUndone(body, seg, r, i); }
  }

  lemma {:induction false} OnlyUndone(body: seq<Sent>, seg: seq<Sent>, r: nat, i: nat)
    requires NoRestart(body) && IsStep(seg, RollbackCheckpoint, r) && Undone(body + seg, i)
    ensures i == |body| + r && r < |seg| && Succeeded(seg[r])
  {
    assert forall k | 0 <= k < |body| :: (body + seg)[k] == body[k];
    assert (body + seg)[i] == seg[i - |body|];
  }

  lemma {:induction false} CommittedRun(script: seq<Phase>, body: seq<Sent>, at: seq<nat>, seg: seq<Sent>, c: nat)
    requires Follows(script, body, at)
    requires IsStep(seg, CommitCheckpoint, c) && c < |seg| && Succeeded(seg[c])
    ensures CommitsAt(script, body + seg, at, |body| + c)
  {
    var all := body + seg;
    assert all[..|body| + c] == body + seg[..c] && all[|body| + c + 1..] == seg[c + 1..];
    FollowsMore(script, body, at, seg[..c]);
  }

  lemma {:induction false} FollowsMore(script: seq<Phase>, run: seq<Sent>, at: seq<nat>, more: seq<Sent>)
    requires Follows(script, run, at) && AllGlances(more)
    ensures Follows(script, run + more, at)
  {}

  lemma {:induction false} RolledBackRun(s0: State, pre: seq<Sent>, s1: State, body: seq<Sent>, s3: State, seg: seq<Sent>, t: State, r: nat)
    requires Chained(s0, pre, s1) && Prepared(pre) && Chained(s1, body, s3) && Chained(s3, seg, t)
    requires NoRestart(body) && IsStep(seg, RollbackCheckpoint, r) && r < |seg| && Succeeded(seg[r])
    ensures RestoresAt(pre, body + seg, |body| + r)
  {
    LastOfChain(s0, pre, s1);
    var u := SplitChain(s3, seg, t, r);
    var all, lead := body + seg, seg[..r];
    ChainedConcat(s1, body, s3, lead, u);
    RollbackRestores(pre[|pre| - 1], body + lead, u, seg[r]);
    assert all[|body| + r + 1..] == seg[r + 1..];
  }

  lemma {:induction false} LastOfChain(s: State, run: seq<Sent>, t: State)
    requires Chained(s, run, t) && run != []
    ensures Faithful(run[|run| - 1]) && t == run[|run| - 1].after
    decreases |run|
  {
    if |run| > 1 { LastOfChain(run[0].after, run[1..], t); }
  }

  lemma {:induction false} SplitChain(s: State, run: seq<Sent>, t: State, i: nat) returns (u: State)
    requires Chained(s, run, t) && i < |run|
    ensures Chained(s, run[..i], u) && EditedOutside(u, run[i].before) && Faithful(run[i])
    decreases |run|
  {
    if i == 0 {
      u := s;
    } else {
      u := SplitChain(run[0].after, run[1..], t, i - 1);
      assert run[..i][1..] == run[1..][..i - 1];
    }
  }

  // ---------------------------------------------------------------- what a caller may rely on

  /**
   What a caller of the workflow tool may rely on: at most one rollback, no change outside the
   transaction, and a text that was validated when it was committed or restored when it was not.
   */
  ghost predicate Settled(ending: Ending, script: seq<Phase>, run: seq<Sent>, v: nat) {
    && OneRollback(Marks(run))
    && match ending
       case NotStarted => KeepsText(run)
       case Committed => RollbackCheckpoint !in Marks(run) && CommittedAt(script, run) && ValidFrom(run, v)
       case RolledBack => Restored(run)
       case Aborted => Restored(run)
       case RollbackFailed => true
  }

  ghost predicate OneRollback(marks: seq<Request>) {
    forall i, j | 0 <= i < j < |marks| :: marks[i] != RollbackCheckpoint || marks[j] != RollbackCheckpoint
  }

  ghost predicate CommittedAt(script: seq<Phase>, run: seq<Sent>) {
    exists pre, body, at, c :: run == pre + body && Prepared(pre) && CommitsAt(script, body, at, c)
  }

  ghost predicate Restored(run: seq<Sent>) {
    exists pre, body, r :: run == pre + body && Prepared(pre) && RestoresAt(pre, body, r)
  }

  /** The text was found valid at `v`, and no later request changed it. */
  ghost predicate ValidFrom(run: seq<Sent>, v: nat) {
    && v < |run| && run[v].request.Validate? && Succeeded(run[v]) && run[v].answer.value.findings.valid
    && KeepsText(run[v..])
  }

  lemma {:induction false} ChainFaithful(s: State, run: seq<Sent>, t: State, k: nat)
    requires Chained(s, run, t) && k < |run|
    ensures Faithful(run[k])
    decreases k
  {
    if k > 0 { ChainFaithful(run[0].after, run[1..], t, k - 1); }
  }

  lemma {:induction false} InOrder(script: seq<Phase>, run: seq<Sent>, at: seq<nat>, k: nat, m: nat)
    requires Follows(script, run, at) && k < |at| && m < |at| && at[k] <= at[m]
    ensures k <= m
  {}

  /** After the validation at `k` a fulfilled script only looks. */
  lemma {:induction false} LaterOnlyLooks(script: seq<Phase>, run: seq<Sent>, at: seq<nat>, k: nat, i: nat)
    requires Follows(script, run, at) && ValidatesAt(script, k) && at[k] <= i < |run|
    ensures Passive(run[i].request)
  {
    if i in at {
      var m :| 0 <= m < |at| && at[m] == i;
      assert Fulfilled(script[m], run[at[m]]);
      InOrder(script, run, at, k, m);
    }
  }

  lemma {:induction false} LaterKeepsText(script: seq<Phase>, body: seq<Sent>, at: seq<nat>, k: nat, c: nat, i: nat)
    requires CommitsAt(script, body, at, c) && ValidatesAt(script, k) && at[k] <= i < |body| && Faithful(body[i])
    ensures body[i].after.text == body[i].before.text
  {
    if i < c {
      LaterOnlyLooks(script, body[..c], at, k, i);
    } else if i > c {
      assert body[i] == body[c + 1..][i - c - 1];
    }
    PassiveKeepsText(body[i]);
  }

  lemma {:induction false} PhaseFulfilled(script: seq<Phase>, body: seq<Sent>, at: seq<nat>, k: nat, c: nat)
    requires CommitsAt(script, body, at, c) && k < |script|
    ensures |at| == |script| && at[k] < c < |body| && Fulfilled(script[k], body[at[k]])
  {
    assert Fulfilled(script[k], body[..c][at[k]]);
  }

  lemma {:induction false} KeepsTextFrom(s: State, script: seq<Phase>, run: seq<Sent>, pre: seq<Sent>, body: seq<Sent>, at: seq<nat>,
                                         k: nat, c: nat, t: State)
    requires Chained(s, run, t) && run == pre + body && CommitsAt(script, body, at, c) && ValidatesAt(script, k)
    requires k < |at| && at[k] <= |body|
    ensures KeepsText(run[|pre| + at[k]..])
  {
    var from := |pre| + at[k];
    forall i | 0 <= i < |run[from..]| ensures run[from..][i].after.text == run[from..][i].before.text {
      KeepsTextBehind(s, script, run, pre, body, at, k, c, t, at[k] + i);
    }
  }

  lemma {:induction false} KeepsTextBehind(s: State, script: seq<Phase>, run: seq<Sent>, pre: seq<Sent>, body: seq<Sent>, at: seq<nat>,
                                           k: nat, c: nat, t: State, i: nat)
    requires Chained(s, run, t) && run == pre + body && CommitsAt(script, body, at, c) && ValidatesAt(script, k)
    requires k < |at| && at[k] <= i < |body|
    ensures run[|pre| + i].after.text == run[|pre| + i].before.text
  {
    assert run[|pre| + i] == body[i];
    ChainFaithful(s, run, t, |pre| + i);
    LaterKeepsText(script, body, at, k, c, i);
  }

  lemma {:induction false} CommittedIsValidated(s: State, script: seq<Phase>, run: seq<Sent>, pre: seq<Sent>, body: seq<Sent>, at: seq<nat>,
                                                r: nat, k: nat, t: State) returns (v: nat)
    requires Chained(s, run, t) && Ended(Committed, script, run, pre, body, at, r) && ValidatesAt(script, k)
    ensures Settled(Committed, script, run, v) && |at| == |script| && v == |pre| + at[k]
  {
    var c :| CommitsAt(script, body, at, c);
    PhaseFulfilled(script, body, at, k, c);
    KeepsTextFrom(s, script, run, pre, body, at, k, c, t);
    v := |pre| + at[k];
    assert run[v] == body[at[k]];
    assert ValidFrom(run, v);
    assert CommittedAt(script, run);
  }

  lemma {:induction false} EndedIsSettled(ending: Ending, script: seq<Phase>, run: seq<Sent>, pre: seq<Sent>, body: seq<Sent>, at: seq<nat>,
                                          r: nat)
    requires Ended(ending, script, run, pre, body, at, r) && !ending.Committed?
    ensures Settled(ending, script, run, 0)
  {
    assert RollbackCheckpoint !in [CreateCheckpoint] && RollbackCheckpoint !in [CreateCheckpoint, CommitCheckpoint];
    assert (ending.RolledBack? || ending.Aborted?) ==> exists u :: RestoresAt(pre, body, u);
  }

  /** Nothing was evaluated up to the validation at `v`, and a new definition was looked at behind it. */
  ghost predicate CheckedBehind(w: Workflow, run: seq<Sent>, v: nat) {
    && (forall i | 0 <= i < |run| && run[i].request.Evaluate? :: v < i)
    && (w.RefactorDefun? ==> exists i | v < i < |run| :: run[i].request.Query?)
  }

  lemma {:induction false} NothingEvaluated(script: seq<Phase>, pre: seq<Sent>, body: seq<Sent>, at: seq<nat>, c: nat, k: nat, i: nat)
    requires Prepared(pre) && CommitsAt(script, body, at, c) && ValidatesAt(script, k) && |at| == |script|
    requires at[k] < c && i <= |pre| + at[k]
    ensures !(pre + body)[i].request.Evaluate?
  {
    if i < |pre| {
      assert pre[i] == if i < |pre| - 1 then pre[..|pre| - 1][i] else pre[|pre| - 1];
    } else {
      var j := i - |pre|;
      assert (pre + body)[i] == body[..c][j];
      if j in at {
        var m :| 0 <= m < |at| && at[m] == j;
        assert Fulfilled(script[m], body[..c][at[m]]);
        InOrder(script, body[..c], at, m, k);
      }
    }
  }

  lemma {:induction false} NameBehind(w: Workflow, pre: seq<Sent>, body: seq<Sent>, at: seq<nat>, c: nat)
    requires w.RefactorDefun? && CommitsAt(Script(w), body, at, c)
    ensures |at| == |Script(w)| && exists i | |pre| + at[1] < i < |pre + body| :: (pre + body)[i].request.Query?
  {
    assert Script(w)[3] == CheckName(w.named);
    assert Fulfilled(Script(w)[3], body[..c][at[3]]);
    assert (pre + body)[|pre| + at[3]] == body[at[3]];
  }

  lemma {:induction false} TailPicksNothing(script: seq<Phase>, body: seq<Sent>, at: seq<nat>, c: nat)
    requires CommitsAt(script, body, at, c)
    ensures PicksNothing(body[c..])
  {
    forall kind ensures Picked(body[c..], kind) == [] {
      forall k | 0 <= k < |body[c..]| ensures !IsOf(body[c..][k].request, kind) {
        if k > 0 { assert body[c..][k] == body[c + 1..][k - 1]; }
      }
      NothingPicked(body[c..], kind);
    }
  }

  lemma {:induction false} CommitChecksBehind(w: Workflow, pre: seq<Sent>, body: seq<Sent>, at: seq<nat>, c: nat)
    requires Prepared(pre) && CommitsAt(Script(w), body, at, c) && |at| == |Script(w)| && at[|Changes(w)|] < c
    ensures CheckedBehind(w, pre + body, |pre| + at[|Changes(w)|])
  {
    var k := |Changes(w)|;
    ScriptValidates(w);
    forall i | 0 <= i < |pre + body| && i <= |pre| + at[k] ensures !(pre + body)[i].request.Evaluate? {
      NothingEvaluated(Script(w), pre, body, at, c, k, i);
    }
    if w.RefactorDefun? { NameBehind(w, pre, body, at, c); }
  }

  lemma {:induction false} CommitHonours(w: Workflow, pre: seq<Sent>, body: seq<Sent>, at: seq<nat>, c: nat)
    requires CommitsAt(Script(w), body, at, c) && Looked(Looks(w), pre)
    ensures Honoured(w, pre + body)
  {
    TailPicksNothing(Script(w), body, at, c);
    ScriptHonours(w, pre, body[..c], at, body[c..]);
    RunCut(pre, body, c);
  }

  lemma {:induction false} RunCut(pre: seq<Sent>, body: seq<Sent>, c: nat)
    requires c <= |body|
    ensures pre + body == pre + body[..c] + body[c..]
  {}

  lemma {:induction false} EndedByCommitAt(script: seq<Phase>, run: seq<Sent>, pre: seq<Sent>, body: seq<Sent>, at: seq<nat>, r: nat)
    returns (c: nat)
    requires Ended(Committed, script, run, pre, body, at, r)
    ensures Prepared(pre) && run == pre + body && CommitsAt(script, body, at, c)
  {
    c :| CommitsAt(script, body, at, c);
  }

  lemma {:induction false} CommittedShows(w: Workflow, run: seq<Sent>, pre: seq<Sent>, body: seq<Sent>, at: seq<nat>, r: nat)
    requires Ended(Committed, Script(w), run, pre, body, at, r) && Looked(Looks(w), pre)
    ensures |at| == |Script(w)| && Honoured(w, run) && CheckedBehind(w, run, |pre| + at[|Changes(w)|])
  {
    var c := EndedByCommitAt(Script(w), run, pre, body, at, r);
    PhaseFulfilled(Script(w), body, at, |Changes(w)|, c);
    CommitHonours(w, pre, body, at, c);
    CommitChecksBehind(w, pre, body, at, c);
  }

  /** A committed run of a workflow. */
  lemma {:induction false} CommittedHonours(s: State, w: Workflow, run: seq<Sent>, pre: seq<Sent>, body: seq<Sent>, at: seq<nat>, r: nat,
                                            t: State) returns (v: nat)
    requires Chained(s, run, t) && Ended(Committed, Script(w), run, pre, body, at, r) && Looked(Looks(w), pre)
    ensures Settled(Committed, Script(w), run, v) && Honoured(w, run) && CheckedBehind(w, run, v)
  {
    ScriptValidates(w);
    v := CommittedIsValidated(s, Script(w), run, pre, body, at, r, |Changes(w)|, t);
    CommittedShows(w, run, pre, body, at, r);
  }

  lemma {:induction false} RefusedDeclines(w: Workflow, run: seq<Sent>, pre: seq<Sent>, body: seq<Sent>, at: seq<nat>, r: nat)
    requires run == pre + body && Looked(Looks(w), pre) && RefusedIn(Script(w), body, at, r)
    ensures Declined(w, run)
  {
    var n: nat :| n <= |body| && Refuses(Script(w), body[..n], at, r) && PicksNothing(body[n..]);
    ScriptDeclines(w, pre, body[..n], at, r, body[n..]);
    RunCut(pre, body, n);
  }

  lemma {:induction false} MissedIsMisnamed(w: Workflow, run: seq<Sent>)
    requires MissedIn(Looks(w), run)
    ensures Misnamed(w, run)
  {
    var n := |Picked(run, Asking)|;
    assert Namings(w) == Looks(w) + if w.RefactorDefun? then [w.named] else [];
    assert Looks(w)[..n - 1] == Namings(w)[..n - 1];
  }
}
