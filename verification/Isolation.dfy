/**
 Whole runs of the tool router with several sessions and editors: who may change which buffer.
 Calls are handled one at a time; editors are also used by people.
 */
module Isolation {
  import opened Bridge
  import opened CodeUnits
  import opened Sessions
  import opened Wrappers

  /** The tools, those that differ by their action listed per action. */
  datatype Tool =
    | ObserveTool | ReadTool | NavigateTool | CapabilitiesTool | ValidateTool | WaitTool | AnalyzeTool | CaptureTool
    | EvalTool | WorkflowTool | VerificationRun | VerificationLook | RenameLook | RenameChange
    | KeySequenceTool | CommandTool | EditTool | CheckpointTool | RollbackTool

  /** The tools that ask for the mutation lease. */
  predicate NeedsLease(t: Tool) {
    || t.EvalTool? || t.WorkflowTool? || t.VerificationRun? || t.RenameChange? || t.KeySequenceTool? || t.CommandTool?
    || t.EditTool? || t.CheckpointTool? || t.RollbackTool?
  }

  /** What happens to an editor during a call: a bridge request, or native keys typed into it. */
  datatype Action = Ask(request: Request) | TypeKeys(result: State)

  /** What a tool may do; a workflow does its work through calls of the other tools. */
  predicate MayDo(t: Tool, a: Action) {
    if a.TypeKeys? then t.KeySequenceTool?
    else
      var r := a.request;
      match t
      case ObserveTool => r.Observe?
      case ReadTool => r.Observe? || r.ReadResource?
      case NavigateTool => r.Observe? || r.Navigate?
      case CapabilitiesTool => r.Query?
      case ValidateTool => r.Observe? || r.Validate?
      case WaitTool => r.Query?
      case AnalyzeTool => r.Query?
      case CaptureTool => false
      case EvalTool => r.Observe? || r.Evaluate?
      case WorkflowTool => r.Observe?
      case VerificationRun => r.Observe? || r.Query? || r.Evaluate?
      case VerificationLook => false
      case RenameLook => r.Observe? || r.PlanRename? || r.PreviewRename? || r.RenameStatus?
      case RenameChange => r.Observe? || r.ApplyRename? || r.RollbackRename? || r.CommitRename?
      case KeySequenceTool => r.Observe? || r.ExecuteKeys?
      case CommandTool => r.Observe? || r.ExecuteCommand?
      case EditTool => r.Observe? || r.ReadResource? || r.EditApply?
      case CheckpointTool => r.Observe? || r.CreateCheckpoint? || r.CommitCheckpoint?
      case RollbackTool => r.Observe? || r.RollbackCheckpoint?
  }

  function Acted(s: State, actions: seq<Action>): State
    decreases |actions|
  {
    if actions == [] then s
    else Acted(match actions[0] case Ask(r) => Handled(s, r).0 case TypeKeys(t) => t, actions[1..])
  }

  datatype System = System(manager: Manager, editors: map<InstanceId, State>)

  /**
   `actions` are those that took effect before the call ended or failed; `retarget` is the
   target the editor reported back, and `late` the clock when it did.
   */
  datatype Happening =
    | Call(id: SessionId, tool: Tool, actions: seq<Action>, retarget: Option<Target>, late: int)
    | OpenSession(instance: InstanceId, profile: Profile, target: Target)
    | CloseSession(id: SessionId)
    | ListSessions
    | SomebodyEdits(instance: InstanceId, result: State)

  predicate Possible(h: Happening) {
    h.Call? ==> forall k | 0 <= k < |h.actions| :: MayDo(h.tool, h.actions[k])
  }

  /** The session as a call may use it, or the error the call ends with. */
  function Admitted(m: Manager, id: SessionId, tool: Tool, now: int, ttl: int): (Manager, bool) {
    var t := Touched(m, id, now, ttl);
    if t.1.Err? then (t.0, false)
    else if !NeedsLease(tool) then (t.0, true)
    else if !AllowsMutations(t.1.value.profile) then (t.0, false)
    else
      var l := Leased(t.0, id, now, ttl);
      (l.0, l.1.Ok?)
  }

  function Next(s: System, h: Happening, now: int, ttl: int): System {
    match h
    case OpenSession(i, p, t) => s.(manager := Opened(s.manager, i, p, t, now))
    case CloseSession(id) => s.(manager := Closed(Touched(s.manager, id, now, ttl).0, id))
    case ListSessions => s.(manager := Pruned(s.manager, now, ttl))
    case SomebodyEdits(i, t) => if i in s.editors then s.(editors := s.editors[i := t]) else s
    case Call(id, tool, actions, retarget, late) =>
      var a := Admitted(s.manager, id, tool, now, ttl);
      if !a.1 then s.(manager := a.0)
      else
        var i := s.manager.sessions[id].instance;
        System(
          if retarget.Some? then Retargeted(a.0, id, retarget.value, late, ttl).0 else a.0,
          if i in s.editors then s.editors[i := Acted(s.editors[i], actions)] else s.editors)
  }

  // ---------------------------------------------------------------- one call

  /** The live session `id` of `i` may change things, nobody else had the lease, and now `id` has it. */
  ghost predicate MayMutate(m: Manager, n: Manager, id: SessionId, i: InstanceId) {
    && id in m.sessions && m.sessions[id].instance == i && AllowsMutations(m.sessions[id].profile)
    && Grants(m, n, i, id)
  }

  lemma {:induction false} AdmittedKeeps(m: Manager, id: SessionId, tool: Tool, now: int, ttl: int)
    requires Consistent(m)
    ensures var a := Admitted(m, id, tool, now, ttl);
            Evolves(m, a.0) && (a.1 && NeedsLease(tool) ==> id in m.sessions && MayMutate(m, a.0, id, m.sessions[id].instance))
  {
    var t := Touched(m, id, now, ttl);
    TouchKeeps(m, id, now, ttl);
    if t.1.Ok? && NeedsLease(tool) && AllowsMutations(t.1.value.profile) {
      LeaseKeeps(t.0, id, now, ttl);
      EvolvesFurther(m, t.0, Leased(t.0, id, now, ttl).0);
    }
  }

  /** A tool without the lease leaves the text alone. */
  lemma {:induction false} LooksKeepText(s: State, tool: Tool, actions: seq<Action>)
    requires !NeedsLease(tool) && forall k | 0 <= k < |actions| :: MayDo(tool, actions[k])
    ensures Acted(s, actions).text == s.text
    decreases |actions|
  {
    if actions != [] {
      assert MayDo(tool, actions[0]);
      assert forall k | 0 <= k < |actions[1..]| :: actions[1..][k] == actions[k + 1];
      var r := actions[0].request;
      assert Handled(s, r).0.text == s.text by { LookKeepsText(s, tool, r); }
      LooksKeepText(Handled(s, r).0, tool, actions[1..]);
    }
  }

  lemma {:induction false} LookKeepsText(s: State, tool: Tool, r: Request)
    requires !NeedsLease(tool) && MayDo(tool, Ask(r))
    ensures Handled(s, r).0.text == s.text
  {}

  lemma {:induction false} NextEvolves(s: System, h: Happening, now: int, ttl: int)
    requires Consistent(s.manager)
    ensures Evolves(s.manager, Next(s, h, now, ttl).manager)
  {
    var m := s.manager;
    match h
    case OpenSession(i, p, t) =>
    case CloseSession(id) =>
      TouchKeeps(m, id, now, ttl);
      var t := Touched(m, id, now, ttl).0;
      CloseKeeps(t, id);
      EvolvesFurther(m, t, Closed(t, id));
    case ListSessions => PruneKeeps(m, now, ttl);
    case SomebodyEdits(_, _) =>
    case Call(id, tool, actions, retarget, late) =>
      AdmittedKeeps(m, id, tool, now, ttl);
      var a := Admitted(m, id, tool, now, ttl);
      if a.1 && retarget.Some? {
        RetargetKeeps(a.0, id, retarget.value, late, ttl);
        EvolvesFurther(m, a.0, Retargeted(a.0, id, retarget.value, late, ttl).0);
      }
  }

  /** Whoever changes the text of `i` through the router may: a live session of `i` that mutates and that no other session locks out. */
  lemma {:induction false} OnlyLeaseHoldersChangeText(s: System, h: Happening, now: int, ttl: int, i: InstanceId)
    requires Consistent(s.manager) && Possible(h) && i in s.editors && !(h.SomebodyEdits? && h.instance == i)
    ensures i in Next(s, h, now, ttl).editors
    ensures Next(s, h, now, ttl).editors[i].text != s.editors[i].text ==>
              h.Call? && NeedsLease(h.tool) && MayMutate(s.manager, Admitted(s.manager, h.id, h.tool, now, ttl).0, h.id, i)
  {
    if h.Call? && Next(s, h, now, ttl).editors[i].text != s.editors[i].text {
      AdmittedKeeps(s.manager, h.id, h.tool, now, ttl);
      if !NeedsLease(h.tool) { LooksKeepText(s.editors[i], h.tool, h.actions); }
    }
  }

  // ---------------------------------------------------------------- whole runs

  ghost predicate IsRun(states: seq<System>, run: seq<Happening>, clock: seq<int>, ttl: int) {
    && |states| == |run| + 1 && |clock| == |run| && Consistent(states[0].manager)
    && forall k | 0 <= k < |run| :: Possible(run[k]) && states[k + 1] == Next(states[k], run[k], clock[k], ttl)
  }

  /** All along a run every lease belongs to a live session, and no session changes its instance or profile. */
  lemma {:induction false} RunEvolves(states: seq<System>, run: seq<Happening>, clock: seq<int>, ttl: int, p: nat, q: nat)
    requires IsRun(states, run, clock, ttl) && p <= q <= |run|
    ensures Consistent(states[p].manager) && Evolves(states[p].manager, states[q].manager)
    decreases q
  {
    if q == 0 {
    } else if p == q {
      RunEvolves(states, run, clock, ttl, q - 1, q - 1);
      NextEvolves(states[q - 1], run[q - 1], clock[q - 1], ttl);
    } else {
      RunEvolves(states, run, clock, ttl, p, q - 1);
      NextEvolves(states[q - 1], run[q - 1], clock[q - 1], ttl);
      EvolvesFurther(states[p].manager, states[q - 1].manager, states[q].manager);
    }
  }

  /**
   Over any run and any clock: as long as the session that holds the lease of `i` has not been
   closed or found expired, the router changes the text of `i` only in calls of that session.
   */
  lemma {:induction false} LeaseIsolates(states: seq<System>, run: seq<Happening>, clock: seq<int>, ttl: int,
                                         p: nat, q: nat, i: InstanceId, owner: SessionId)
    requires IsRun(states, run, clock, ttl) && p <= q < |run|
    requires i in states[p].manager.owners && states[p].manager.owners[i] == owner
    requires owner in states[q].manager.sessions
    requires i in states[q].editors && !(run[q].SomebodyEdits? && run[q].instance == i)
    ensures i in states[q + 1].editors
    ensures states[q + 1].editors[i].text != states[q].editors[i].text ==>
              run[q].Call? && run[q].id == owner && NeedsLease(run[q].tool) && AllowsMutations(states[q].manager.sessions[owner].profile)
  {
    RunEvolves(states, run, clock, ttl, p, q);
    OnlyLeaseHoldersChangeText(states[q], run[q], clock[q], ttl, i);
  }

  /** A lease goes from one session to another only after the first one is gone for good. */
  lemma {:induction false} LeaseMovesAfterTheOwner(states: seq<System>, run: seq<Happening>, clock: seq<int>, ttl: int,
                                                   p: nat, q: nat, r: nat, i: InstanceId)
    requires IsRun(states, run, clock, ttl) && p <= q <= r <= |run|
    requires i in states[p].manager.owners && i in states[q].manager.owners && states[p].manager.owners[i] != states[q].manager.owners[i]
    ensures states[p].manager.owners[i] !in states[r].manager.sessions
    ensures var m := states[q].manager; m.owners[i] in m.sessions && m.sessions[m.owners[i]].instance == i
  {
    RunEvolves(states, run, clock, ttl, p, q);
    RunEvolves(states, run, clock, ttl, q, r);
    assert states[p].manager.owners[i] < states[p].manager.next;
  }
}
