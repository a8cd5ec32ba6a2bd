/**
 The steps of the semantic workflows, the finding each step insists on, and that a run which
 follows them shows what the caller asked for.
 */
module WorkflowScripts {
  import opened Bridge
  import opened CodeUnits
  import opened Connection
  import opened Sequences
  import opened Wrappers
  import opened WorkflowDemands

  /** A step of a workflow and the finding it insists on. */
  datatype Phase =
    | Edit
    | Command
    | CommandSome
    | GoTo
    | CheckName(insists: bool)
    | CheckValid
    | Run(expected: Option<Text>)

  /** The requests a phase may make; their arguments depend on the caller and on earlier answers. */
  predicate Makes(p: Phase, r: Request) {
    match p
    case Edit => r.EditApply?
    case Command => r.ExecuteCommand?
    case CommandSome => r.ExecuteCommand?
    case GoTo => r.Navigate?
    case CheckName(_) => r.Query?
    case CheckValid => r.Validate?
    case Run(_) => r.Evaluate?
  }

  /** What a phase demands of the editor's findings before the workflow goes on. */
  predicate Accepts(p: Phase, f: Findings) {
    match p
    case Edit => true
    case Command => true
    case CommandSome => f.replacements >= 1
    case GoTo => true
    case CheckName(insists) => insists ==> f.named
    case CheckValid => f.valid
    case Run(expected) => f.completed && (expected.Some? ==> f.value == expected.value)
  }

  ghost predicate Fulfilled(p: Phase, e: Sent) {
    Makes(p, e.request) && Succeeded(e) && Accepts(p, e.answer.value.findings)
  }

  /** The request was answered with findings the phase does not accept. */
  ghost predicate RefusedPhase(p: Phase, e: Sent) {
    Makes(p, e.request) && Succeeded(e) && !Accepts(p, e.answer.value.findings)
  }

  /** A look that a tool call takes by itself. */
  predicate Glance(r: Request) {
    r.Observe? || r.ReadResource?
  }

  ghost predicate AllGlances(seg: seq<Sent>) {
    forall k | 0 <= k < |seg| :: Glance(seg[k].request)
  }

  /** The phases were fulfilled in order by the requests at `at`; all others only looked at the buffer. */
  ghost predicate Follows(script: seq<Phase>, run: seq<Sent>, at: seq<nat>) {
    && |at| == |script|
    && (forall k | 0 <= k < |at| :: at[k] < |run| && Fulfilled(script[k], run[at[k]]))
    && (forall j, k | 0 <= j < k < |at| :: at[j] < at[k])
    && (forall i | 0 <= i < |run| && i !in at :: Glance(run[i].request))
  }

  /** The first phases were fulfilled, and the next one was refused by the request at `r`; nothing but looks came behind it. */
  ghost predicate Refuses(script: seq<Phase>, run: seq<Sent>, at: seq<nat>, r: nat) {
    && |at| < |script| && r < |run| && Follows(script[..|at|], run[..r], at)
    && RefusedPhase(script[|at|], run[r]) && AllGlances(run[r + 1..])
  }

  // ---------------------------------------------------------------- the scripts

  /** The looks before the transaction; do they insist on a name? */
  function Looks(w: Workflow): seq<bool> {
    match w
    case RefactorDefun(named, _) => [named]
    case RenameSymbol(named, _) => if named then [true] else []
    case ExtractFunction(inferred, named, _, _, _) => (if inferred then [false] else []) + if named then [true] else []
    case OrgRewriteSubtree(named, _) => [named]
    case _ => []
  }

  function EvaluationPhases(es: seq<Evaluation>): seq<Phase> {
    if es == [] then []
    else When(es[0].navigate, [GoTo]) + [Run(es[0].expected)] + EvaluationPhases(es[1..])
  }

  function Times(n: nat, p: Phase): seq<Phase> {
    seq(n, _ => p)
  }

  function When(b: bool, script: seq<Phase>): seq<Phase> {
    if b then script else []
  }

  function Script(w: Workflow): seq<Phase> {
    Changes(w) + [CheckValid] + Checks(w)
  }

  /** Everything that changes the text. */
  function Changes(w: Workflow): seq<Phase> {
    match w
    case RepairLisp(_) => [Edit]
    case RefactorDefun(_, _) => [Edit]
    case RenameSymbol(_, _) => [CommandSome]
    case OrgRewriteSubtree(_, changes) => Times(changes, Command)
    case OrgBuildSection(atEnd, properties, startReported, body, table, source, _, _) =>
      When(atEnd, [GoTo]) + [Command] + Times(properties, Command) + When(startReported, [GoTo]) + [GoTo]
      + When(body, [Edit]) + When(table, [GoTo, Command]) + When(source, [GoTo, Command])
    case _ => [Command]
  }

  /** Everything behind the first validation. */
  function Checks(w: Workflow): seq<Phase> {
    match w
    case RefactorDefun(named, es) => [GoTo, CheckName(named)] + EvaluationPhases(es)
    case ExtractFunction(_, _, definition, enclosing, es) =>
      When(definition, [GoTo, Run(None)]) + When(enclosing, [GoTo, Run(None)]) + EvaluationPhases(es)
    case OrgRewriteSubtree(_, _) => []
    case OrgBuildSection(_, _, _, _, _, source, execute, expected) => When(source && execute, [Run(expected)]) + [CheckValid]
    case _ => EvaluationPhases(w.evaluations)
  }

  predicate Mutates(p: Phase) {
    p.Edit? || p.Command? || p.CommandSome?
  }

  /** The phase at `k` validates; later phases do not change the text, and earlier ones evaluate nothing. */
  ghost predicate ValidatesAt(script: seq<Phase>, k: nat) {
    && k < |script| && script[k].CheckValid?
    && (forall i | k < i < |script| :: !Mutates(script[i]))
    && forall i | 0 <= i < k :: !script[i].Run? && !script[i].CheckName?
  }

  // ---------------------------------------------------------------- phases by kind

  function KindOf(p: Phase): Kind {
    match p
    case Edit => Editing
    case Command => Commanding
    case CommandSome => Commanding
    case GoTo => Navigating
    case CheckName(_) => Asking
    case CheckValid => Validating
    case Run(_) => Evaluating
  }

  function PhasesOf(script: seq<Phase>, kind: Kind): seq<Phase> {
    if script == [] then []
    else PhasesOf(script[..|script| - 1], kind) + if KindOf(script[|script| - 1]) == kind then [script[|script| - 1]] else []
  }

  lemma {:induction false} PhasesConcat(a: seq<Phase>, b: seq<Phase>, kind: Kind)
    ensures PhasesOf(a + b, kind) == PhasesOf(a, kind) + PhasesOf(b, kind)
  {
    if b == [] {
      assert a + b == a;
    } else {
      var n := |b| - 1;
      PhasesConcat(a, b[..n], kind);
      assert (a + b)[..|a| + n] == a + b[..n] && (a + b)[|a| + n] == b[n];
    }
  }

  /** The answered requests, one for each phase, with findings the phases accept. */
  ghost predicate Meet(es: seq<Sent>, phases: seq<Phase>) {
    |es| == |phases| && forall k | 0 <= k < |es| :: Fulfilled(phases[k], es[k])
  }

  lemma {:induction false} PickedOne(e: Sent, kind: Kind)
    ensures Picked([e], kind) == if IsOf(e.request, kind) then [e] else []
  {
    assert [e][..0] == [];
  }

  lemma {:induction false} GlancesPickNothing(seg: seq<Sent>, kind: Kind)
    requires AllGlances(seg)
    ensures Picked(seg, kind) == []
  {
    NothingPicked(seg, kind);
  }

  /** The requests of a kind are those of the phases of that kind, in order. */
  lemma {:induction false} FollowsMeets(script: seq<Phase>, run: seq<Sent>, at: seq<nat>, kind: Kind)
    requires Follows(script, run, at)
    ensures Meet(Picked(run, kind), PhasesOf(script, kind))
    decreases |script|
  {
    if script == [] {
      GlancesPickNothing(run, kind);
    } else {
      var first, p, front, e, behind := LastFulfilled(script, run, at);
      FollowsMeets(first, front, at[..|at| - 1], kind);
      MeetOneMore(front, first, e, p, behind, kind);
    }
  }

  lemma {:induction false} LastFulfilled(script: seq<Phase>, run: seq<Sent>, at: seq<nat>)
    returns (first: seq<Phase>, p: Phase, front: seq<Sent>, e: Sent, behind: seq<Sent>)
    requires Follows(script, run, at) && script != []
    ensures script == first + [p] && run == front + [e] + behind && |first| < |script|
    ensures Follows(first, front, at[..|at| - 1]) && Fulfilled(p, e) && AllGlances(behind)
  {
    var n := |script| - 1;
    FollowsFront(script, run, at);
    first, p, front, e, behind := script[..n], script[n], run[..at[n]], run[at[n]], run[at[n] + 1..];
  }

  /** A phase's request and its kind. */
  lemma {:induction false} MakesItsKind(p: Phase, r: Request, kind: Kind)
    requires Makes(p, r)
    ensures IsOf(r, kind) <==> KindOf(p) == kind
  {}

  lemma {:induction false} PickedWith(front: seq<Sent>, e: Sent, behind: seq<Sent>, kind: Kind)
    requires AllGlances(behind)
    ensures Picked(front + [e] + behind, kind) == Picked(front, kind) + if IsOf(e.request, kind) then [e] else []
  {
    GlancesPickNothing(behind, kind);
    PickedOne(e, kind);
    PickedConcat(front, [e], kind);
    PickedConcat(front + [e], behind, kind);
  }

  lemma {:induction false} PhasesOneMore(script: seq<Phase>, p: Phase, kind: Kind)
    ensures PhasesOf(script + [p], kind) == PhasesOf(script, kind) + if KindOf(p) == kind then [p] else []
  {
    assert (script + [p])[..|script|] == script;
  }

  lemma {:induction false} MeetOneMore(front: seq<Sent>, script: seq<Phase>, e: Sent, p: Phase, behind: seq<Sent>, kind: Kind)
    requires Meet(Picked(front, kind), PhasesOf(script, kind)) && Fulfilled(p, e) && AllGlances(behind)
    ensures Meet(Picked(front + [e] + behind, kind), PhasesOf(script + [p], kind))
  {
    PickedWith(front, e, behind, kind);
    PhasesOneMore(script, p, kind);
    MakesItsKind(p, e.request, kind);
  }

  lemma {:induction false} FollowsFront(script: seq<Phase>, run: seq<Sent>, at: seq<nat>)
    requires Follows(script, run, at) && script != []
    ensures var n := |script| - 1;
            at[n] < |run| && Follows(script[..n], run[..at[n]], at[..n]) && AllGlances(run[at[n] + 1..])
  {
    var n := |script| - 1;
    var front := run[..at[n]];
    forall k | 0 <= k < n ensures at[k] < |front| && Fulfilled(script[k], front[at[k]]) {
      assert front[at[k]] == run[at[k]];
    }
    forall i | 0 <= i < |front| && i !in at[..n] ensures Glance(front[i].request) {
      assert i !in at;
    }
    forall i | at[n] < i < |run| ensures Glance(run[i].request) {
      assert i !in at;
    }
  }

  // ---------------------------------------------------------------- the scripts by kind

  lemma {:induction false} NoPhases(script: seq<Phase>, kind: Kind)
    requires forall i | 0 <= i < |script| :: KindOf(script[i]) != kind
    ensures PhasesOf(script, kind) == []
  {
    if script != [] { NoPhases(script[..|script| - 1], kind); }
  }

  lemma {:induction false} AllPhases(script: seq<Phase>, kind: Kind)
    requires forall i | 0 <= i < |script| :: KindOf(script[i]) == kind
    ensures PhasesOf(script, kind) == script
  {
    if script != [] { AllPhases(script[..|script| - 1], kind); }
  }

  function Runs(expected: seq<Option<Text>>): (r: seq<Phase>)
    ensures |r| == |expected| && forall k | 0 <= k < |r| :: r[k] == Run(expected[k])
  {
    seq(|expected|, k requires 0 <= k < |expected| => Run(expected[k]))
  }

  function Mine(p: Phase, kind: Kind): seq<Phase> {
    if KindOf(p) == kind then [p] else []
  }

  lemma {:induction false} PhasesOfOne(p: Phase, kind: Kind)
    ensures PhasesOf([p], kind) == Mine(p, kind)
  {
    assert [p][..0] == [];
  }

  lemma {:induction false} PhasesOfTwo(a: Phase, b: Phase, kind: Kind)
    ensures PhasesOf([a, b], kind) == Mine(a, kind) + Mine(b, kind)
  {
    PhasesOfOne(a, kind);
    PhasesOfOne(b, kind);
    PhasesConcat([a], [b], kind);
    assert [a, b] == [a] + [b];
  }

  lemma {:induction false} PhasesWhen(b: bool, p: Phase, kind: Kind)
    ensures PhasesOf(When(b, [p]), kind) == When(b, Mine(p, kind))
  {
    PhasesOfOne(p, kind);
  }

  lemma {:induction false} PhasesWhenTwo(b: bool, p: Phase, q: Phase, kind: Kind)
    ensures PhasesOf(When(b, [p, q]), kind) == When(b, Mine(p, kind) + Mine(q, kind))
  {
    PhasesOfTwo(p, q, kind);
  }

  // ---------------------------------------------------------------- evaluations

  lemma {:induction false} OneEvaluation(navigate: bool, expected: Option<Text>, kind: Kind)
    ensures PhasesOf(When(navigate, [GoTo]) + [Run(expected)], kind) == When(navigate, Mine(GoTo, kind)) + Mine(Run(expected), kind)
  {
    PhasesWhen(navigate, GoTo, kind);
    PhasesOfOne(Run(expected), kind);
    PhasesConcat(When(navigate, [GoTo]), [Run(expected)], kind);
  }

  /** What evaluations with these expectations, and so many navigations, have of a kind. */
  ghost predicate Evaluates(phases: seq<Phase>, expected: seq<Option<Text>>, navigations: nat, kind: Kind) {
    match kind
    case Evaluating => phases == Runs(expected)
    case Navigating => |phases| == navigations
    case _ => phases == []
  }

  lemma {:induction false} EvaluatesMore(a: seq<Phase>, x: seq<Option<Text>>, m: nat, b: seq<Phase>, y: seq<Option<Text>>, n: nat,
                                         kind: Kind)
    requires Evaluates(a, x, m, kind) && Evaluates(b, y, n, kind)
    ensures Evaluates(a + b, x + y, m + n, kind)
  {
    if kind.Evaluating? { assert Runs(x) + Runs(y) == Runs(x + y); }
  }

  lemma {:induction false} OneEvaluates(navigate: bool, expected: Option<Text>, kind: Kind) returns (first: seq<Phase>)
    ensures first == When(navigate, [GoTo]) + [Run(expected)] && Evaluates(PhasesOf(first, kind), [expected], One(navigate), kind)
  {
    first := When(navigate, [GoTo]) + [Run(expected)];
    OneEvaluation(navigate, expected, kind);
  }

  lemma {:induction false} EvaluationKinds(es: seq<Evaluation>, kind: Kind)
    ensures Evaluates(PhasesOf(EvaluationPhases(es), kind), Expected(es), Navigations(es), kind)
  {
    if es != [] {
      var e, rest := es[0], EvaluationPhases(es[1..]);
      var first := OneEvaluates(e.navigate, e.expected, kind);
      EvaluationKinds(es[1..], kind);
      EvaluatesMore(PhasesOf(first, kind), [e.expected], One(e.navigate), PhasesOf(rest, kind), Expected(es[1..]),
                    Navigations(es[1..]), kind);
      PhasesConcat(first, rest, kind);
    }
  }

  lemma {:induction false} LoadKinds(b: bool, kind: Kind)
    ensures Evaluates(PhasesOf(When(b, [GoTo, Run(None)]), kind), if b then [None] else [], One(b), kind)
  {
    PhasesWhenTwo(b, GoTo, Run(None), kind);
  }

  lemma {:induction false} ExtractKinds(definition: bool, enclosing: bool, es: seq<Evaluation>, kind: Kind)
    ensures Evaluates(PhasesOf(When(definition, [GoTo, Run(None)]) + When(enclosing, [GoTo, Run(None)]) + EvaluationPhases(es), kind),
                      (if definition then [None] else []) + (if enclosing then [None] else []) + Expected(es),
                      One(definition) + One(enclosing) + Navigations(es), kind)
  {
    var a, b, c := When(definition, [GoTo, Run(None)]), When(enclosing, [GoTo, Run(None)]), EvaluationPhases(es);
    var x: seq<Option<Text>>, y: seq<Option<Text>> := if definition then [None] else [], if enclosing then [None] else [];
    LoadKinds(definition, kind);
    LoadKinds(enclosing, kind);
    EvaluationKinds(es, kind);
    EvaluatesMore(PhasesOf(a, kind), x, One(definition), PhasesOf(b, kind), y, One(enclosing), kind);
    EvaluatesMore(PhasesOf(a, kind) + PhasesOf(b, kind), x + y, One(definition) + One(enclosing), PhasesOf(c, kind), Expected(es),
                  Navigations(es), kind);
    PhasesConcat(a, b, kind);
    PhasesConcat(a + b, c, kind);
  }

  // ---------------------------------------------------------------- behind the first validation

  /** What the checks of a workflow have of a kind. */
  ghost predicate ChecksHave(w: Workflow, phases: seq<Phase>, kind: Kind) {
    match kind
    case Evaluating => phases == Runs(Expectations(w))
    case Asking => phases == if w.RefactorDefun? then [CheckName(w.named)] else []
    case Validating => |phases| == One(w.OrgBuildSection?)
    case Navigating => |phases| == if w.OrgBuildSection? then 0 else Number(w, Navigating)
    case _ => phases == []
  }

  lemma {:induction false} RefactorChecks(w: Workflow, kind: Kind)
    requires w.RefactorDefun?
    ensures ChecksHave(w, PhasesOf(Checks(w), kind), kind)
  {
    EvaluationKinds(w.evaluations, kind);
    PhasesOfTwo(GoTo, CheckName(w.named), kind);
    PhasesConcat([GoTo, CheckName(w.named)], EvaluationPhases(w.evaluations), kind);
  }

  lemma {:induction false} ExecuteKinds(execute: bool, expected: Option<Text>, kind: Kind)
    ensures PhasesOf(When(execute, [Run(expected)]) + [CheckValid], kind)
         == When(execute, Mine(Run(expected), kind)) + Mine(CheckValid, kind)
  {
    PhasesWhen(execute, Run(expected), kind);
    PhasesOfOne(CheckValid, kind);
    PhasesConcat(When(execute, [Run(expected)]), [CheckValid], kind);
  }

  lemma {:induction false} ExecuteHas(execute: bool, expected: Option<Text>, phases: seq<Phase>, kind: Kind)
    requires phases == When(execute, Mine(Run(expected), kind)) + Mine(CheckValid, kind)
    ensures kind.Evaluating? ==> phases == Runs(if execute then [expected] else [])
    ensures kind.Validating? ==> phases == [CheckValid]
    ensures !kind.Evaluating? && !kind.Validating? ==> phases == []
  {}

  lemma {:induction false} BuildHas(w: Workflow, phases: seq<Phase>, kind: Kind)
    requires w.OrgBuildSection?
    requires kind.Evaluating? ==> phases == Runs(Expectations(w))
    requires kind.Validating? ==> phases == [CheckValid]
    requires !kind.Evaluating? && !kind.Validating? ==> phases == []
    ensures ChecksHave(w, phases, kind)
  {}

  lemma {:induction false} BuildChecks(w: Workflow, kind: Kind)
    requires w.OrgBuildSection?
    ensures ChecksHave(w, PhasesOf(Checks(w), kind), kind)
  {
    var execute, expected := w.source && w.execute, w.expected;
    BuildShape(w, When(w.atEnd, [GoTo]) + [Command] + Times(w.properties, Command) + When(w.startReported, [GoTo]) + [GoTo]);
    ExecuteKinds(execute, expected, kind);
    ExecuteHas(execute, expected, PhasesOf(Checks(w), kind), kind);
    BuildHas(w, PhasesOf(Checks(w), kind), kind);
  }

  lemma {:induction false} ExtractChecks(w: Workflow, kind: Kind)
    requires w.ExtractFunction?
    ensures ChecksHave(w, PhasesOf(Checks(w), kind), kind)
  {
    ExtractKinds(w.evaluateDefinition, w.evaluateEnclosing, w.evaluations, kind);
  }

  lemma {:induction false} ChecksByKind(w: Workflow, kind: Kind)
    ensures ChecksHave(w, PhasesOf(Checks(w), kind), kind)
  {
    match w {
      case RefactorDefun(_, _) => RefactorChecks(w, kind);
      case ExtractFunction(_, _, _, _, _) => ExtractChecks(w, kind);
      case OrgRewriteSubtree(_, _) =>
      case OrgBuildSection(_, _, _, _, _, _, _, _) => BuildChecks(w, kind);
      case _ => EvaluationKinds(w.evaluations, kind);
    }
  }

  // ---------------------------------------------------------------- up to the first validation

  /** The number of phases of a kind in a script made of parts. */
  ghost predicate Has(script: seq<Phase>, kind: Kind, n: nat) {
    |PhasesOf(script, kind)| == n
  }

  lemma {:induction false} HasMore(a: seq<Phase>, m: nat, b: seq<Phase>, n: nat, kind: Kind)
    requires Has(a, kind, m) && Has(b, kind, n)
    ensures Has(a + b, kind, m + n)
  {
    PhasesConcat(a, b, kind);
  }

  lemma {:induction false} TimesOfKind(n: nat, kind: Kind)
    ensures PhasesOf(Times(n, Command), kind) == if kind.Commanding? then Times(n, Command) else []
  {
    if kind.Commanding? { AllPhases(Times(n, Command), kind); } else { NoPhases(Times(n, Command), kind); }
  }

  lemma {:induction false} WhenHas(b: bool, p: Phase, kind: Kind)
    ensures Has(When(b, [p]), kind, if KindOf(p) == kind then One(b) else 0)
  {
    PhasesWhen(b, p, kind);
  }

  lemma {:induction false} InsertHas(b: bool, kind: Kind)
    ensures Has(When(b, [GoTo, Command]), kind, if kind.Navigating? || kind.Commanding? then One(b) else 0)
  {
    PhasesWhenTwo(b, GoTo, Command, kind);
  }

  lemma {:induction false} TimesHas(n: nat, kind: Kind)
    ensures Has(Times(n, Command), kind, if kind.Commanding? then n else 0)
  {
    TimesOfKind(n, kind);
  }

  lemma {:induction false} HeadingHas(atEnd: bool, properties: nat, startReported: bool, kind: Kind) returns (script: seq<Phase>, n: nat)
    ensures script == When(atEnd, [GoTo]) + [Command] + Times(properties, Command) + When(startReported, [GoTo]) + [GoTo]
    ensures Has(script, kind, n)
    ensures n == if kind.Commanding? then 1 + properties else if kind.Navigating? then One(atEnd) + One(startReported) + 1 else 0
  {
    var a, b, c, d, e := When(atEnd, [GoTo]), [Command], Times(properties, Command), When(startReported, [GoTo]), [GoTo];
    var go, command := if kind.Navigating? then 1 else 0, if kind.Commanding? then 1 else 0;
    WhenHas(atEnd, GoTo, kind);
    PhasesOfOne(Command, kind);
    TimesHas(properties, kind);
    WhenHas(startReported, GoTo, kind);
    PhasesOfOne(GoTo, kind);
    HasMore(a, go * One(atEnd), b, command, kind);
    HasMore(a + b, go * One(atEnd) + command, c, command * properties, kind);
    HasMore(a + b + c, go * One(atEnd) + command + command * properties, d, go * One(startReported), kind);
    HasMore(a + b + c + d, go * One(atEnd) + command + command * properties + go * One(startReported), e, go, kind);
    script, n := a + b + c + d + e, go * One(atEnd) + command + command * properties + go * One(startReported) + go;
  }

  lemma {:induction false} ContentsHave(heading: seq<Phase>, n: nat, body: bool, table: bool, source: bool, kind: Kind)
    returns (script: seq<Phase>, m: nat)
    requires Has(heading, kind, n)
    ensures script == heading + When(body, [Edit]) + When(table, [GoTo, Command]) + When(source, [GoTo, Command]) && Has(script, kind, m)
    ensures m == n + (if kind.Editing? then One(body) else 0)
                 + (if kind.Navigating? || kind.Commanding? then One(table) + One(source) else 0)
  {
    var edit, insert := if kind.Editing? then 1 else 0, if kind.Navigating? || kind.Commanding? then 1 else 0;
    WhenHas(body, Edit, kind);
    InsertHas(table, kind);
    InsertHas(source, kind);
    HasMore(heading, n, When(body, [Edit]), edit * One(body), kind);
    script, m := heading + When(body, [Edit]), n + edit * One(body);
    HasMore(script, m, When(table, [GoTo, Command]), insert * One(table), kind);
    script, m := script + When(table, [GoTo, Command]), m + insert * One(table);
    HasMore(script, m, When(source, [GoTo, Command]), insert * One(source), kind);
    script, m := script + When(source, [GoTo, Command]), m + insert * One(source);
  }

  lemma {:induction false} BuildChanges(w: Workflow, kind: Kind)
    requires w.OrgBuildSection?
    ensures Has(Changes(w), kind, if kind in {Editing, Commanding, Navigating} then Number(w, kind) else 0)
  {
    var heading, n := HeadingHas(w.atEnd, w.properties, w.startReported, kind);
    var script, m := ContentsHave(heading, n, w.body, w.table, w.source, kind);
    BuildShape(w, heading);
    assert m == if kind in {Editing, Commanding, Navigating} then Number(w, kind) else 0;
  }

  lemma {:induction false} BuildShape(w: Workflow, heading: seq<Phase>)
    requires w.OrgBuildSection?
    requires heading == When(w.atEnd, [GoTo]) + [Command] + Times(w.properties, Command) + When(w.startReported, [GoTo]) + [GoTo]
    ensures Changes(w) == heading + When(w.body, [Edit]) + When(w.table, [GoTo, Command]) + When(w.source, [GoTo, Command])
    ensures Checks(w) == When(w.source && w.execute, [Run(w.expected)]) + [CheckValid]
    ensures Expectations(w) == if w.source && w.execute then [w.expected] else []
  {}

  lemma {:induction false} SmallChanges(w: Workflow, kind: Kind)
    requires !w.OrgBuildSection? && !w.OrgRewriteSubtree?
    ensures kind in {Evaluating, Asking, Validating, Navigating} ==> PhasesOf(Changes(w), kind) == []
    ensures kind in {Editing, Commanding} ==> |PhasesOf(Changes(w), kind)| == Number(w, kind)
    ensures w.RenameSymbol? && kind.Commanding? ==> PhasesOf(Changes(w), kind) == [CommandSome]
  {
    match w
    case RepairLisp(_) => PhasesOfOne(Edit, kind);
    case RefactorDefun(_, _) => PhasesOfOne(Edit, kind);
    case RenameSymbol(_, _) => PhasesOfOne(CommandSome, kind);
    case _ => PhasesOfOne(Command, kind);
  }

  /** The changes: as many edits and commands as the workflow takes, and nothing is checked. */
  lemma {:induction false} ChangesByKind(w: Workflow, kind: Kind)
    ensures kind in {Evaluating, Asking, Validating} ==> PhasesOf(Changes(w), kind) == []
    ensures kind in {Editing, Commanding} ==> |PhasesOf(Changes(w), kind)| == Number(w, kind)
    ensures kind.Navigating? ==> |PhasesOf(Changes(w), kind)| == if w.OrgBuildSection? then Number(w, kind) else 0
    ensures w.RenameSymbol? && kind.Commanding? ==> PhasesOf(Changes(w), kind) == [CommandSome]
  {
    match w {
      case OrgRewriteSubtree(_, changes) => TimesOfKind(changes, kind);
      case OrgBuildSection(_, _, _, _, _, _, _, _) => BuildChanges(w, kind);
      case _ => SmallChanges(w, kind);
    }
  }

  // ---------------------------------------------------------------- whole scripts

  lemma {:induction false} ScriptParts(w: Workflow, kind: Kind)
    ensures PhasesOf(Script(w), kind) == PhasesOf(Changes(w), kind) + Mine(CheckValid, kind) + PhasesOf(Checks(w), kind)
  {
    PhasesConcat(Changes(w) + [CheckValid], Checks(w), kind);
    PhasesConcat(Changes(w), [CheckValid], kind);
    PhasesOfOne(CheckValid, kind);
  }

  /** The phases of each kind are those the caller's demands call for. */
  ghost predicate ScriptHas(w: Workflow, phases: seq<Phase>, kind: Kind) {
    match kind
    case Evaluating => phases == Runs(Expectations(w))
    case Asking => phases == if w.RefactorDefun? then [CheckName(w.named)] else []
    case _ => |phases| == Number(w, kind) && (w.RenameSymbol? && kind.Commanding? ==> phases == [CommandSome])
  }

  lemma {:induction false} ScriptByKind(w: Workflow, kind: Kind)
    ensures ScriptHas(w, PhasesOf(Script(w), kind), kind)
  {
    ScriptParts(w, kind);
    ChecksByKind(w, kind);
    ChangesByKind(w, kind);
  }

  // ---------------------------------------------------------------- the validation

  lemma {:induction false} NoneOfKind(script: seq<Phase>, kind: Kind)
    requires PhasesOf(script, kind) == []
    ensures forall i | 0 <= i < |script| :: KindOf(script[i]) != kind
  {
    if script != [] {
      var n := |script| - 1;
      NoneOfKind(script[..n], kind);
      assert forall i | 0 <= i < n :: script[..n][i] == script[i];
    }
  }

  lemma {:induction false} ValidatesBetween(changes: seq<Phase>, checks: seq<Phase>)
    requires forall i | 0 <= i < |checks| :: KindOf(checks[i]) != Editing && KindOf(checks[i]) != Commanding
    requires forall i | 0 <= i < |changes| :: KindOf(changes[i]) != Evaluating && KindOf(changes[i]) != Asking
    ensures ValidatesAt(changes + [CheckValid] + checks, |changes|)
  {}

  /** Every workflow validates after its last change and before anything is checked or evaluated. */
  lemma {:induction false} ScriptValidates(w: Workflow)
    ensures ValidatesAt(Script(w), |Changes(w)|)
  {
    ChecksByKind(w, Editing);
    ChecksByKind(w, Commanding);
    ChangesByKind(w, Evaluating);
    ChangesByKind(w, Asking);
    NoneOfKind(Checks(w), Editing);
    NoneOfKind(Checks(w), Commanding);
    NoneOfKind(Changes(w), Evaluating);
    NoneOfKind(Changes(w), Asking);
    ValidatesBetween(Changes(w), Checks(w));
  }

  // ---------------------------------------------------------------- what a run shows

  /** The run asked for nothing but looks, and those found the names that were insisted on. */
  ghost predicate Looked(looks: seq<bool>, pre: seq<Sent>) {
    && AllAsNamed(Picked(pre, Asking), looks)
    && forall kind | kind != Asking :: Picked(pre, kind) == []
  }

  ghost predicate PicksNothing(run: seq<Sent>) {
    forall kind :: Picked(run, kind) == []
  }

  lemma {:induction false} PickedParts(pre: seq<Sent>, body: seq<Sent>, tail: seq<Sent>, kind: Kind)
    requires PicksNothing(tail)
    ensures Picked(pre + body + tail, kind) == Picked(pre, kind) + Picked(body, kind)
  {
    PickedConcat(pre, body, kind);
    PickedConcat(pre + body, tail, kind);
  }

  lemma {:induction false} PhasesKind(script: seq<Phase>, kind: Kind)
    ensures forall k | 0 <= k < |PhasesOf(script, kind)| :: KindOf(PhasesOf(script, kind)[k]) == kind
  {
    if script != [] { PhasesKind(script[..|script| - 1], kind); }
  }

  lemma {:induction false} MeetRuns(es: seq<Sent>, expected: seq<Option<Text>>)
    requires Meet(es, Runs(expected))
    ensures AllAsExpected(es, expected)
  {
    forall k | 0 <= k < |es| ensures AsExpected(es[k], expected[k]) { assert Fulfilled(Runs(expected)[k], es[k]); }
  }

  lemma {:induction false} MeetValid(es: seq<Sent>, script: seq<Phase>)
    requires Meet(es, PhasesOf(script, Validating))
    ensures AllValid(es)
  {
    PhasesKind(script, Validating);
    forall k | 0 <= k < |es| ensures Succeeded(es[k]) && es[k].answer.value.findings.valid {
      assert Fulfilled(PhasesOf(script, Validating)[k], es[k]);
    }
  }

  lemma {:induction false} MeetNames(w: Workflow, looks: seq<Sent>, es: seq<Sent>)
    requires AllAsNamed(looks, Looks(w)) && Meet(es, if w.RefactorDefun? then [CheckName(w.named)] else [])
    ensures AllAsNamed(looks + es, Namings(w))
  {
    if w.RefactorDefun? { assert Fulfilled(CheckName(w.named), es[0]); }
  }

  lemma {:induction false} MeetAnswered(es: seq<Sent>, phases: seq<Phase>)
    requires Meet(es, phases)
    ensures AllAnswered(es)
  {
    forall k | 0 <= k < |es| ensures Succeeded(es[k]) { assert Fulfilled(phases[k], es[k]); }
  }

  lemma {:induction false} MeetReplaced(es: seq<Sent>)
    requires Meet(es, [CommandSome])
    ensures AllReplaced(es)
  {
    assert Fulfilled([CommandSome][0], es[0]);
  }

  lemma {:induction false} ScriptHonoured(w: Workflow, es: seq<Sent>, kind: Kind)
    requires kind != Asking && Meet(es, PhasesOf(Script(w), kind))
    ensures HonouredIn(w, es, kind)
  {
    ScriptByKind(w, kind);
    MeetAnswered(es, PhasesOf(Script(w), kind));
    if kind.Evaluating? {
      MeetRuns(es, Expectations(w));
    } else if kind.Validating? {
      MeetValid(es, Script(w));
    } else if kind.Commanding? && w.RenameSymbol? {
      MeetReplaced(es);
    }
  }

  /** A run that fulfilled the script of a workflow did what the caller asked for, and found it so. */
  lemma {:induction false} KindHonoured(w: Workflow, pre: seq<Sent>, body: seq<Sent>, at: seq<nat>, tail: seq<Sent>, kind: Kind)
    requires Looked(Looks(w), pre) && Follows(Script(w), body, at) && PicksNothing(tail)
    ensures HonouredIn(w, Picked(pre + body + tail, kind), kind)
  {
    FollowsMeets(Script(w), body, at, kind);
    PickedParts(pre, body, tail, kind);
    if kind.Asking? {
      ScriptByKind(w, kind);
      MeetNames(w, Picked(pre, kind), Picked(body, kind));
    } else {
      assert [] + Picked(body, kind) == Picked(body, kind);
      ScriptHonoured(w, Picked(body, kind), kind);
    }
  }

  lemma {:induction false} ScriptHonours(w: Workflow, pre: seq<Sent>, body: seq<Sent>, at: seq<nat>, tail: seq<Sent>)
    requires Looked(Looks(w), pre) && Follows(Script(w), body, at) && PicksNothing(tail)
    ensures Honoured(w, pre + body + tail)
  {
    forall kind ensures HonouredIn(w, Picked(pre + body + tail, kind), kind) {
      KindHonoured(w, pre, body, at, tail, kind);
    }
  }

  // ---------------------------------------------------------------- what a refusal shows

  /** The phase that refused is the next one of its kind. */
  lemma {:induction false} NextOfKind(script: seq<Phase>, n: nat, kind: Kind)
    requires n < |script| && KindOf(script[n]) == kind
    ensures var m, phases := |PhasesOf(script[..n], kind)|, PhasesOf(script, kind);
            m < |phases| && phases[m] == script[n] && phases[..m] == PhasesOf(script[..n], kind)
  {
    assert script == script[..n] + [script[n]] + script[n + 1..];
    PhasesConcat(script[..n] + [script[n]], script[n + 1..], kind);
    PhasesOneMore(script[..n], script[n], kind);
  }

  /** The requests of the refused kind: those that were accepted, and the refused one. */
  lemma {:induction false} RefusedLast(script: seq<Phase>, run: seq<Sent>, at: seq<nat>, r: nat) returns (accepted: seq<Sent>, p: Phase)
    requires Refuses(script, run, at, r)
    ensures p == script[|at|] && RefusedPhase(p, run[r]) && Picked(run, KindOf(p)) == accepted + [run[r]]
    ensures |accepted| < |PhasesOf(script, KindOf(p))| && PhasesOf(script, KindOf(p))[|accepted|] == p
    ensures Meet(accepted, PhasesOf(script, KindOf(p))[..|accepted|])
  {
    p := script[|at|];
    var kind := KindOf(p);
    accepted := Picked(run[..r], kind);
    FollowsMeets(script[..|at|], run[..r], at, kind);
    NextOfKind(script, |at|, kind);
    MakesItsKind(p, run[r].request, kind);
    PickedWith(run[..r], run[r], run[r + 1..], kind);
    assert run == run[..r] + [run[r]] + run[r + 1..];
  }

  lemma {:induction false} NoneInsists(es: seq<Evaluation>)
    ensures CommandSome !in EvaluationPhases(es)
  {
    if es != [] { NoneInsists(es[1..]); }
  }

  /** Only a renaming insists on replacements. */
  lemma {:induction false} NothingInsists(w: Workflow)
    requires !w.RenameSymbol?
    ensures CommandSome !in Changes(w)
  {
    if w.OrgBuildSection? {
      var a, b := When(w.atEnd, [GoTo]) + [Command] + Times(w.properties, Command), When(w.startReported, [GoTo]) + [GoTo];
      assert CommandSome !in a && CommandSome !in b;
      assert CommandSome !in When(w.body, [Edit]) + When(w.table, [GoTo, Command]) + When(w.source, [GoTo, Command]);
    }
  }

  lemma {:induction false} OnlyRenameInsists(w: Workflow)
    requires CommandSome in Script(w)
    ensures w.RenameSymbol?
  {
    ChecksByKind(w, Commanding);
    NoneOfKind(Checks(w), Commanding);
    if !w.RenameSymbol? { NothingInsists(w); }
  }

  lemma {:induction false} RefusedEvaluation(w: Workflow, run: seq<Sent>, accepted: seq<Sent>, e: Sent, p: Phase)
    requires Picked(run, Evaluating) == accepted + [e] && RefusedPhase(p, e)
    requires |accepted| < |Expectations(w)| && p == Runs(Expectations(w))[|accepted|]
    requires Meet(accepted, Runs(Expectations(w))[..|accepted|])
    ensures Unexpected(w, run)
  {
    var m := |accepted|;
    assert (accepted + [e])[..m] == accepted && Runs(Expectations(w))[..m] == Runs(Expectations(w)[..m]);
    MeetRuns(accepted, Expectations(w)[..m]);
  }

  lemma {:induction false} RefusedName(w: Workflow, run: seq<Sent>, looks: seq<Sent>, e: Sent, p: Phase)
    requires Picked(run, Asking) == looks + [e]
    requires w.RefactorDefun? && AllAsNamed(looks, Looks(w)) && p == CheckName(w.named) && RefusedPhase(p, e)
    ensures Misnamed(w, run)
  {
    assert (looks + [e])[..|looks|] == looks;
  }

  lemma {:induction false} RefusedValidation(run: seq<Sent>, accepted: seq<Sent>, e: Sent, script: seq<Phase>)
    requires Picked(run, Validating) == accepted + [e] && RefusedPhase(CheckValid, e) && |accepted| <= |PhasesOf(script, Validating)|
    requires Meet(accepted, PhasesOf(script, Validating)[..|accepted|])
    ensures Invalid(run)
  {
    PhasesKind(script, Validating);
    assert (accepted + [e])[..|accepted|] == accepted;
    forall k | 0 <= k < |accepted| ensures Succeeded(accepted[k]) && accepted[k].answer.value.findings.valid {
      assert Fulfilled(PhasesOf(script, Validating)[..|accepted|][k], accepted[k]);
    }
  }

  lemma {:induction false} RefusedCommand(w: Workflow, run: seq<Sent>, accepted: seq<Sent>, e: Sent)
    requires Picked(run, Commanding) == accepted + [e] && RefusedPhase(CommandSome, e)
    requires CommandSome in Script(w) && |accepted| < |PhasesOf(Script(w), Commanding)|
    ensures NothingReplaced(w, run)
  {
    OnlyRenameInsists(w);
    ScriptByKind(w, Commanding);
  }

  lemma {:induction false} PhaseDeclines(w: Workflow, run: seq<Sent>, looks: seq<Sent>, accepted: seq<Sent>, e: Sent, p: Phase)
    requires Picked(run, KindOf(p)) == (if p.CheckName? then looks else []) + (accepted + [e])
    requires AllAsNamed(looks, Looks(w)) && p in Script(w) && RefusedPhase(p, e)
    requires |accepted| < |PhasesOf(Script(w), KindOf(p))| && PhasesOf(Script(w), KindOf(p))[|accepted|] == p
    requires Meet(accepted, PhasesOf(Script(w), KindOf(p))[..|accepted|])
    ensures Declined(w, run)
  {
    ScriptByKind(w, KindOf(p));
    assert [] + (accepted + [e]) == accepted + [e];
    match p {
      case Run(_) => RefusedEvaluation(w, run, accepted, e, p);
      case CheckName(_) =>
        assert accepted == [] && looks + ([] + [e]) == looks + [e];
        RefusedName(w, run, looks, e, p);
      case CheckValid => RefusedValidation(run, accepted, e, Script(w));
      case CommandSome => RefusedCommand(w, run, accepted, e);
      case _ =>
    }
  }

  /** A run that was refused by a phase of its script shows which finding it was. */
  lemma {:induction false} ScriptDeclines(w: Workflow, pre: seq<Sent>, body: seq<Sent>, at: seq<nat>, r: nat, tail: seq<Sent>)
    requires Looked(Looks(w), pre) && Refuses(Script(w), body, at, r) && PicksNothing(tail)
    ensures Declined(w, pre + body + tail)
  {
    var accepted, p := RefusedLast(Script(w), body, at, r);
    PickedParts(pre, body, tail, KindOf(p));
    PhaseDeclines(w, pre + body + tail, Picked(pre, Asking), accepted, body[r], p);
  }
}
