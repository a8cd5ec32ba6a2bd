/**
 The reference editor bridge: one buffer with its change tick, a checkpoint, and the journals
 of project renames. Requests come one at a time; between them somebody else may edit.
 */
module Bridge {
  import opened CodeUnits
  import opened Wrappers

  /** What a rename plan remembers, and what its application leaves behind for a rollback. */
  datatype RenamePlan = RenamePlan(oldSymbol: Text, newSymbol: Text, original: Text)

  datatype Journal = Journal(original: Text, applied: Text)

  datatype State = State(
    text: Text, tick: int, stateSeq: int, point: int, checkpoint: Option<Text>,
    plans: map<nat, RenamePlan>, journals: map<nat, Journal>)

  datatype Edit =
    | Insert(position: Option<int>, inserted: Text)
    | ReplaceRange(start: Option<int>, end: Option<int>, replacement: Text)
    | DeleteRange(start: Option<int>, end: Option<int>)
    | UnknownEdit

  /** What the code behind a command did: raise an error, leave the text alone, or change it. */
  datatype Effect = Raised | Kept(point: int) | Changed(text: Text, point: int)

  datatype Request =
    | Observe
    | Query
    | Validate
    | ReadResource(first: Option<int>, last: Option<int>)
    | Navigate(destination: Option<int>)
    | EditApply(edit: Edit, expected: Option<int>)
    | ExecuteKeys(expected: Option<int>)
    | ExecuteCommand(effect: Effect, expected: Option<int>)
    | Evaluate(expected: Option<int>)
    | PlanRename(oldSymbol: Text, newSymbol: Text)
    | PreviewRename(planId: nat)
    | ApplyRename(planId: nat)
    | RenameStatus(journalId: nat)
    | RollbackRename(journalId: nat)
    | CommitRename(journalId: nat)
    | CreateCheckpoint
    | CommitCheckpoint
    | RollbackCheckpoint

  datatype ErrorCode = StateConflict | TransactionNotFound | InvalidArgument | TargetNotFound | CommandFailed | Internal

  datatype Reply =
    | Answered(tick: int)
    | Content(text: Text, tick: int, start: int, end: int)
    | Planned(planId: nat)
    | Journaled(journalId: nat)
    | Failed(code: ErrorCode)

  /** The fixed text that the key channel of the reference bridge types. */
  function TypedKeys(): Text { Ascii(";internal-key\n") }

  function InitialState(): State {
    State(Ascii("(alpha beta)\n"), 1, 1, 1, None, map[], map[])
  }

  // ---------------------------------------------------------------- editing texts

  /** A bound of String.prototype.slice: negative bounds count from the end. */
  function Bound(n: int, length: nat): (r: nat)
    ensures r <= length
  {
    if n < 0 then (if length + n < 0 then 0 else length + n) else if n > length then length else n
  }

  function Before(t: Text, n: int): Text { t[..Bound(n, |t|)] }

  function Behind(t: Text, n: int): Text { t[Bound(n, |t|)..] }

  /** A missing position is the start of the buffer; a missing start or end is the number zero. */
  function Edited(t: Text, edit: Edit): Text {
    match edit
    case Insert(position, inserted) =>
      var index := (if position.Some? then position.value else 1) - 1;
      Before(t, index) + inserted + Behind(t, index)
    case ReplaceRange(start, end, replacement) => Before(t, Index(start)) + replacement + Behind(t, Index(end))
    case DeleteRange(start, end) => Before(t, Index(start)) + Behind(t, Index(end))
    case UnknownEdit => t
  }

  function Index(position: Option<int>): int { (if position.Some? then position.value else 0) - 1 }

  /** t.split(old).join(new): an empty separator splits between all units. */
  function ReplaceAll(t: Text, from: Text, to: Text): Text {
    if t == [] then []
    else if from == [] then (if |t| == 1 then t else [t[0]] + to + ReplaceAll(t[1..], from, to))
    else if from <= t then to + ReplaceAll(t[|from|..], from, to)
    else [t[0]] + ReplaceAll(t[1..], from, to)
  }

  // ---------------------------------------------------------------- one request

  predicate Conflicts(s: State, expected: Option<int>) {
    expected.Some? && expected.value != s.tick
  }

  /** Another state, and another text. */
  function Bumped(s: State, text: Text): State {
    s.(text := text, tick := s.tick + 1, stateSeq := s.stateSeq + 1)
  }

  function Handled(s: State, r: Request): (State, Reply) {
    match r
    case Observe => (s, Answered(s.tick))
    case Query => (s, Answered(s.tick))
    case Validate => (s, Answered(s.tick))
    case ReadResource(first, last) =>
      var start := if first.Some? then first.value else 1;
      var end := if last.Some? then last.value else |s.text| + 1;
      if start < 1 || end < start || end > |s.text| + 1 then (s, Failed(InvalidArgument))
      else (s, Content(s.text[start - 1..end - 1], s.tick, start, end))
    case Navigate(to) =>
      if to.None? then (s, Failed(TargetNotFound)) else (s.(point := to.value), Answered(s.tick))
    case EditApply(edit, expected) =>
      if Conflicts(s, expected) then (s, Failed(StateConflict))
      else (Bumped(s, Edited(s.text, edit)), Answered(s.tick + 1))
    case ExecuteKeys(expected) =>
      if Conflicts(s, expected) then (s, Failed(StateConflict))
      else (Bumped(s, s.text + TypedKeys()), Answered(s.tick + 1))
    case ExecuteCommand(effect, expected) =>
      if Conflicts(s, expected) then (s, Failed(StateConflict))
      else (
        match effect
        case Raised => (s, Failed(Internal))
        case Kept(point) => (s.(point := point, stateSeq := s.stateSeq + 1), Answered(s.tick))
        case Changed(text, point) => (Bumped(s, text).(point := point), Answered(s.tick + 1))
      )
    case Evaluate(expected) =>
      if Conflicts(s, expected) then (s, Failed(StateConflict)) else (s, Answered(s.tick))
    case PlanRename(from, to) =>
      var id := |s.plans| + 1;
      (s.(plans := s.plans[id := RenamePlan(from, to, s.text)]), Planned(id))
    case PreviewRename(id) =>
      if id in s.plans then (s, Answered(s.tick)) else (s, Failed(CommandFailed))
    case ApplyRename(id) =>
      if id !in s.plans then (s, Failed(CommandFailed))
      else if s.text != s.plans[id].original then (s, Failed(StateConflict))
      else
        var applied := ReplaceAll(s.text, s.plans[id].oldSymbol, s.plans[id].newSymbol);
        var journalId := |s.journals| + 1;
        (Bumped(s, applied).(plans := s.plans - {id}, journals := s.journals[journalId := Journal(s.text, applied)]), Journaled(journalId))
    case RenameStatus(id) =>
      if id in s.journals then (s, Answered(s.tick)) else (s, Failed(TransactionNotFound))
    case RollbackRename(id) =>
      if id !in s.journals then (s, Failed(TransactionNotFound))
      else if s.text != s.journals[id].applied then (s, Failed(StateConflict))
      else (Bumped(s, s.journals[id].original).(journals := s.journals - {id}), Answered(s.tick + 1))
    case CommitRename(id) =>
      if id !in s.journals then (s, Failed(TransactionNotFound)) else (s.(journals := s.journals - {id}), Answered(s.tick))
    case CreateCheckpoint => (s.(checkpoint := Some(s.text)), Answered(s.tick))
    case CommitCheckpoint => (s.(checkpoint := None), Answered(s.tick))
    case RollbackCheckpoint =>
      if s.checkpoint.None? then (s, Failed(TransactionNotFound))
      else (Bumped(s, s.checkpoint.value).(checkpoint := None), Answered(s.tick + 1))
  }

  class FakeEmacsBridge {
    var text: Text
    var tick: int
    var stateSeq: int
    var point: int
    var checkpoint: Option<Text>
    var renamePlans: map<nat, RenamePlan>
    var renameJournals: map<nat, Journal>

    constructor ()
      ensures CurrentState() == InitialState()
    {
      text := Ascii("(alpha beta)\n");
      tick, stateSeq, point, checkpoint := 1, 1, 1, None;
      renamePlans, renameJournals := map[], map[];
    }

    function CurrentState(): State
      reads this
    {
      State(text, tick, stateSeq, point, checkpoint, renamePlans, renameJournals)
    }

    method Bump(mutate: bool)
      modifies this`stateSeq, this`tick
      ensures stateSeq == old(stateSeq) + 1 && tick == if mutate then old(tick) + 1 else old(tick)
    {
      stateSeq := stateSeq + 1;
      if mutate { tick := tick + 1; }
    }

    /** The requests that change the text under a precondition. */
    method Change(r: Request) returns (reply: Reply)
      requires r.EditApply? || r.ExecuteKeys? || r.ExecuteCommand?
      modifies this
      ensures (CurrentState(), reply) == Handled(old(CurrentState()), r)
    {
      if r.expected.Some? && r.expected.value != tick { return Failed(StateConflict); }
      match r {
        case EditApply(edit, _) =>
          text := Edited(text, edit);
          Bump(true);
        case ExecuteKeys(_) =>
          text := text + TypedKeys();
          Bump(true);
        case ExecuteCommand(effect, _) =>
          var mutated := false;
          match effect {
            case Raised => return Failed(Internal);
            case Kept(p) => point := p;
            case Changed(t, p) => text, point, mutated := t, p, true;
          }
          Bump(mutated);
      }
      return Answered(tick);
    }

    method ApplyPlan(id: nat) returns (reply: Reply)
      modifies this
      ensures (CurrentState(), reply) == Handled(old(CurrentState()), ApplyRename(id))
    {
      if id !in renamePlans { return Failed(CommandFailed); }
      var plan := renamePlans[id];
      if text != plan.original { return Failed(StateConflict); }
      var applied := ReplaceAll(text, plan.oldSymbol, plan.newSymbol);
      var journalId := |renameJournals| + 1;
      renameJournals := renameJournals[journalId := Journal(text, applied)];
      text := applied;
      renamePlans := renamePlans - {id};
      Bump(true);
      return Journaled(journalId);
    }

    method Rename(r: Request) returns (reply: Reply)
      requires r.PlanRename? || r.PreviewRename? || r.ApplyRename? || r.RenameStatus? || r.RollbackRename? || r.CommitRename?
      modifies this
      ensures (CurrentState(), reply) == Handled(old(CurrentState()), r)
    {
      match r
      case PlanRename(from, to) =>
        var planId := |renamePlans| + 1;
        renamePlans := renamePlans[planId := RenamePlan(from, to, text)];
        return Planned(planId);
      case PreviewRename(id) =>
        return if id in renamePlans then Answered(tick) else Failed(CommandFailed);
      case ApplyRename(id) => reply := ApplyPlan(id);
      case RenameStatus(id) =>
        return if id in renameJournals then Answered(tick) else Failed(TransactionNotFound);
      case RollbackRename(id) =>
        if id !in renameJournals { return Failed(TransactionNotFound); }
        if text != renameJournals[id].applied { return Failed(StateConflict); }
        text := renameJournals[id].original;
        renameJournals := renameJournals - {id};
        Bump(true);
        return Answered(tick);
      case CommitRename(id) =>
        if id !in renameJournals { return Failed(TransactionNotFound); }
        renameJournals := renameJournals - {id};
        return Answered(tick);
    }

    method Checkpoint(r: Request) returns (reply: Reply)
      requires r.CreateCheckpoint? || r.CommitCheckpoint? || r.RollbackCheckpoint?
      modifies this
      ensures (CurrentState(), reply) == Handled(old(CurrentState()), r)
    {
      if r.CreateCheckpoint? {
        checkpoint := Some(text);
      } else if r.CommitCheckpoint? {
        checkpoint := None;
      } else {
        if checkpoint.None? { return Failed(TransactionNotFound); }
        text := checkpoint.value;
        checkpoint := None;
        Bump(true);
      }
      return Answered(tick);
    }

    method Handle(r: Request) returns (reply: Reply)
      modifies this
      ensures (CurrentState(), reply) == Handled(old(CurrentState()), r)
    {
      if r.EditApply? || r.ExecuteKeys? || r.ExecuteCommand? {
        reply := Change(r);
      } else if r.PlanRename? || r.PreviewRename? || r.ApplyRename? || r.RenameStatus? || r.RollbackRename? || r.CommitRename? {
        reply := Rename(r);
      } else if r.ReadResource? {
        var start := if r.first.Some? then r.first.value else 1;
        var end := if r.last.Some? then r.last.value else |text| + 1;
        if start < 1 || end < start || end > |text| + 1 { return Failed(InvalidArgument); }
        return Content(text[start - 1..end - 1], tick, start, end);
      } else if r.Navigate? {
        if r.destination.None? { return Failed(TargetNotFound); }
        point := r.destination.value;
        return Answered(tick);
      } else if r.Evaluate? {
        if r.expected.Some? && r.expected.value != tick { return Failed(StateConflict); }
        return Answered(tick);
      } else if r.CreateCheckpoint? || r.CommitCheckpoint? || r.RollbackCheckpoint? {
        reply := Checkpoint(r);
      } else {
        return Answered(tick);
      }
    }
  }

  // ---------------------------------------------------------------- runs with an outside editor

  /** Somebody else at the editor: a new text comes with a later tick; the bridge's own records stay. */
  predicate EditedOutside(s: State, t: State) {
    && t.tick >= s.tick && (t.text != s.text ==> t.tick > s.tick)
    && t.checkpoint == s.checkpoint && t.plans == s.plans && t.journals == s.journals
  }

  datatype Event = Asked(request: Request) | Outside(result: State)

  ghost predicate Steps(s: State, e: Event, t: State) {
    match e
    case Asked(r) => t == Handled(s, r).0
    case Outside(u) => t == u && EditedOutside(s, t)
  }

  ghost predicate IsRun(states: seq<State>, events: seq<Event>) {
    |states| == |events| + 1 && forall i | 0 <= i < |events| :: Steps(states[i], events[i], states[i + 1])
  }

  /** A request never turns the tick back, and never changes the text without advancing it. */
  lemma {:induction false} RequestAdvancesTick(s: State, r: Request)
    ensures var t := Handled(s, r).0; t.tick >= s.tick && (t.text != s.text ==> t.tick > s.tick)
  {
    match r
    case ExecuteCommand(effect, expected) => { match effect { case _ => } }
    case _ =>
  }

  lemma {:induction false} TickMonotone(states: seq<State>, events: seq<Event>, i: nat, j: nat)
    requires IsRun(states, events) && i <= j <= |events|
    ensures states[i].tick <= states[j].tick
    ensures states[i].tick == states[j].tick ==> states[i].text == states[j].text
    decreases j - i
  {
    if i < j {
      assert Steps(states[i], events[i], states[i + 1]);
      match events[i] {
        case Asked(r) => RequestAdvancesTick(states[i], r);
        case Outside(_) =>
      }
      TickMonotone(states, events, i + 1, j);
    }
  }

  /** Two states of a run with the same tick have the same text. */
  lemma {:induction false} TickFixesText(states: seq<State>, events: seq<Event>, i: nat, j: nat)
    requires IsRun(states, events) && i < |states| && j < |states| && states[i].tick == states[j].tick
    ensures states[i].text == states[j].text
  {
    if i <= j { TickMonotone(states, events, i, j); } else { TickMonotone(states, events, j, i); }
  }

  // ---------------------------------------------------------------- rename journals

  /** The plan is there and still fits the text, so that applying it leaves a journal. */
  predicate Applicable(s: State, planId: nat) {
    planId in s.plans && s.text == s.plans[planId].original
  }

  /**
   Journal ids are numbered by how many journals are open. Applying a rename adds a journal
   exactly when that number is not in use; otherwise it takes the place of the journal with that
   number, which is lost unless it happens to be the same one. No other journal is touched.
   */
  lemma {:induction false} ApplyKeepsJournals(s: State, planId: nat)
    requires Applicable(s, planId)
    ensures var id, t := |s.journals| + 1, Handled(s, ApplyRename(planId)).0;
            var made := Journal(s.text, ReplaceAll(s.text, s.plans[planId].oldSymbol, s.plans[planId].newSymbol));
            && Handled(s, ApplyRename(planId)).1 == Journaled(id) && id in t.journals && t.journals[id] == made
            && (|t.journals| == |s.journals| + 1 <==> id !in s.journals)
            && (forall j | j in s.journals && j != id :: j in t.journals && t.journals[j] == s.journals[j])
            && ((forall j | j in s.journals :: j in t.journals && t.journals[j] == s.journals[j])
                <==> (id in s.journals ==> s.journals[id] == made))
  {
    var id, t := |s.journals| + 1, Handled(s, ApplyRename(planId)).0;
    var made := Journal(s.text, ReplaceAll(s.text, s.plans[planId].oldSymbol, s.plans[planId].newSymbol));
    assert t.journals == s.journals[id := made];
    assert t.journals.Keys == s.journals.Keys + {id};
    forall j | j in s.journals && j != id ensures t.journals[j] == s.journals[j] {}
  }

  /** Planning and applying the rename of a text of one unit. */
  lemma {:induction false} RenameUnit(s: State, u: CodeUnit, v: CodeUnit) returns (planned: State, t: State)
    requires s.plans == map[] && s.text == [u]
    ensures planned == Handled(s, PlanRename([u], [v])).0 && t == Handled(planned, ApplyRename(1)).0
    ensures planned.journals == s.journals && t.text == [v] && t.plans == map[]
    ensures t.journals == s.journals[|s.journals| + 1 := Journal([u], [v])]
  {
    planned := Handled(s, PlanRename([u], [v])).0;
    t := Handled(planned, ApplyRename(1)).0;
    assert planned.plans == map[1 := RenamePlan([u], [v], [u])];
    assert [u] <= [u] && [u][1..] == [];
    assert ReplaceAll([u], [u], [v]) == [v];
    assert t.plans == map[];
  }

  function Last(states: seq<State>): State
    requires states != []
  {
    states[|states| - 1]
  }

  lemma {:induction false} RunGrows(states: seq<State>, events: seq<Event>, r: Request) returns (more: seq<State>, longer: seq<Event>)
    requires IsRun(states, events)
    ensures IsRun(more, longer) && states <= more && |more| == |states| + 1 && longer == events + [Asked(r)]
    ensures Last(more) == Handled(Last(states), r).0
  {
    more, longer := states + [Handled(Last(states), r).0], events + [Asked(r)];
    forall i | 0 <= i < |longer| ensures Steps(more[i], longer[i], more[i + 1]) {
      if i < |events| { assert Steps(states[i], events[i], states[i + 1]); }
    }
  }

  /** A run with one more rename, planned and applied. */
  lemma {:induction false} RunRenames(states: seq<State>, events: seq<Event>, u: CodeUnit, v: CodeUnit)
    returns (more: seq<State>, longer: seq<Event>)
    requires IsRun(states, events) && Last(states).plans == map[] && Last(states).text == [u]
    ensures IsRun(more, longer) && states <= more && longer == events + [Asked(PlanRename([u], [v])), Asked(ApplyRename(1))]
    ensures more[|more| - 2].journals == Last(states).journals && Last(more).text == [v] && Last(more).plans == map[]
    ensures Last(more).journals == Last(states).journals[|Last(states).journals| + 1 := Journal([u], [v])]
  {
    var planned, t := RenameUnit(Last(states), u, v);
    var half, first := RunGrows(states, events, PlanRename([u], [v]));
    assert Last(half) == planned;
    more, longer := RunGrows(half, first, ApplyRename(1));
    assert Last(more) == t && more[|more| - 2] == Last(half);
  }

  lemma {:induction false} RunStarts() returns (states: seq<State>, events: seq<Event>)
    ensures IsRun(states, events) && |events| == 1 && states[0] == InitialState()
    ensures Last(states).text == [0x61] && Last(states).plans == map[] && Last(states).journals == map[]
  {
    states, events := RunGrows([InitialState()], [], EditApply(ReplaceRange(Some(1), Some(14), [0x61]), None));
    assert |InitialState().text| == 13;
  }

  lemma {:induction false} RunCommits(states: seq<State>, events: seq<Event>, kept: Journal) returns (more: seq<State>, longer: seq<Event>)
    requires IsRun(states, events) && Last(states).journals.Keys == {1, 2} && Last(states).journals[2] == kept
    ensures IsRun(more, longer) && states <= more && longer == events + [Asked(CommitRename(1))]
    ensures Last(more).text == Last(states).text && Last(more).plans == Last(states).plans && Last(more).journals == map[2 := kept]
  {
    more, longer := RunGrows(states, events, CommitRename(1));
  }

  lemma {:induction false} RunRenamesTwice() returns (states: seq<State>, events: seq<Event>)
    ensures IsRun(states, events) && |events| == 5 && states[0] == InitialState()
    ensures Last(states).text == [0x63] && Last(states).plans == map[]
    ensures Last(states).journals == map[1 := Journal([0x61], [0x62]), 2 := Journal([0x62], [0x63])]
  {
    var first, one := RunStarts();
    var second, two := RunRenames(first, one, 0x61, 0x62);
    assert Last(second).journals == map[1 := Journal([0x61], [0x62])];
    states, events := RunRenames(second, two, 0x62, 0x63);
    assert first[0] == second[0] == states[0];
  }

  /** After two renames the first is committed; the third takes the number of the second, whose original is lost. */
  lemma {:induction false} OpenJournalLost() returns (states: seq<State>, events: seq<Event>)
    ensures IsRun(states, events) && states[0] == InitialState() && |events| == 8 && events[7] == Asked(ApplyRename(1))
    ensures states[7].journals == map[2 := Journal([0x62], [0x63])]
    ensures states[8].journals == map[2 := Journal([0x63], [0x64])]
  {
    var renamed, five := RunRenamesTwice();
    var committed, six := RunCommits(renamed, five, Journal([0x62], [0x63]));
    states, events := RunRenames(committed, six, 0x63, 0x64);
    assert renamed[0] == committed[0] == states[0];
  }
}
