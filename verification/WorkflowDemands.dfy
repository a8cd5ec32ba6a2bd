/**
 What a caller asks of a semantic workflow, and what a run shows of it: said of the requests of
 the run and of their answers alone, whatever steps the workflow takes.
 */
module WorkflowDemands {
  import opened Bridge
  import opened CodeUnits
  import opened Connection
  import opened Wrappers

  datatype Evaluation = Evaluation(navigate: bool, expected: Option<Text>)

  /** The operations of the workflow tool; `named` says whether the caller named what it expects to find. */
  datatype Workflow =
    | RepairLisp(evaluations: seq<Evaluation>)
    | RefactorDefun(named: bool, evaluations: seq<Evaluation>)
    | RenameSymbol(named: bool, evaluations: seq<Evaluation>)
    | ExtractFunction(inferred: bool, named: bool, evaluateDefinition: bool, evaluateEnclosing: bool, evaluations: seq<Evaluation>)
    | MoveForm(evaluations: seq<Evaluation>)
    | TransformSexp(evaluations: seq<Evaluation>)
    | OrgRewriteSubtree(named: bool, changes: nat)
    | OrgBuildSection(atEnd: bool, properties: nat, startReported: bool, body: bool, table: bool, source: bool, execute: bool,
                      expected: Option<Text>)

  // ---------------------------------------------------------------- the requests of a run by kind

  datatype Kind = Editing | Commanding | Navigating | Asking | Validating | Evaluating

  predicate IsOf(r: Request, kind: Kind) {
    match kind
    case Editing => r.EditApply?
    case Commanding => r.ExecuteCommand?
    case Navigating => r.Navigate?
    case Asking => r.Query?
    case Validating => r.Validate?
    case Evaluating => r.Evaluate?
  }

  /** The requests of one kind, in order. */
  function Picked(run: seq<Sent>, kind: Kind): seq<Sent> {
    if run == [] then []
    else Picked(run[..|run| - 1], kind) + if IsOf(run[|run| - 1].request, kind) then [run[|run| - 1]] else []
  }

  lemma {:induction false} PickedConcat(a: seq<Sent>, b: seq<Sent>, kind: Kind)
    ensures Picked(a + b, kind) == Picked(a, kind) + Picked(b, kind)
  {
    if b == [] {
      assert a + b == a;
    } else {
      var n := |b| - 1;
      PickedConcat(a, b[..n], kind);
      assert (a + b)[..|a| + n] == a + b[..n] && (a + b)[|a| + n] == b[n];
    }
  }

  lemma {:induction false} NothingPicked(run: seq<Sent>, kind: Kind)
    requires forall k | 0 <= k < |run| :: !IsOf(run[k].request, kind)
    ensures Picked(run, kind) == []
  {
    if run != [] { NothingPicked(run[..|run| - 1], kind); }
  }

  ghost predicate AllAnswered(es: seq<Sent>) {
    forall k | 0 <= k < |es| :: Succeeded(es[k])
  }

  // ---------------------------------------------------------------- what is asked for

  /** The values expected of the evaluations, where the caller named one. */
  function Expectations(w: Workflow): seq<Option<Text>> {
    match w
    case ExtractFunction(_, _, definition, enclosing, es) =>
      (if definition then [None] else []) + (if enclosing then [None] else []) + Expected(es)
    case OrgRewriteSubtree(_, _) => []
    case OrgBuildSection(_, _, _, _, _, source, execute, expected) => if source && execute then [expected] else []
    case _ => Expected(w.evaluations)
  }

  function Expected(es: seq<Evaluation>): seq<Option<Text>> {
    if es == [] then [] else [es[0].expected] + Expected(es[1..])
  }

  function Navigations(es: seq<Evaluation>): nat {
    if es == [] then 0 else One(es[0].navigate) + Navigations(es[1..])
  }

  function One(b: bool): nat { if b then 1 else 0 }

  /** The looks at the definition or heading: does the caller insist on its name? */
  function Namings(w: Workflow): seq<bool> {
    match w
    case RefactorDefun(named, _) => [named, named]
    case RenameSymbol(named, _) => if named then [true] else []
    case ExtractFunction(inferred, named, _, _, _) => (if inferred then [false] else []) + (if named then [true] else [])
    case OrgRewriteSubtree(named, _) => [named]
    case _ => []
  }

  /** How many requests of the other kinds a workflow takes. */
  function Number(w: Workflow, kind: Kind): nat {
    match kind
    case Editing =>
      (match w
       case RepairLisp(_) => 1
       case RefactorDefun(_, _) => 1
       case OrgBuildSection(_, _, _, body, _, _, _, _) => One(body)
       case _ => 0)
    case Commanding =>
      (match w
       case RepairLisp(_) => 0
       case RefactorDefun(_, _) => 0
       case OrgRewriteSubtree(_, changes) => changes
       case OrgBuildSection(_, properties, _, _, table, source, _, _) => 1 + properties + One(table) + One(source)
       case _ => 1)
    case Navigating =>
      (match w
       case RefactorDefun(_, es) => 1 + Navigations(es)
       case ExtractFunction(_, _, definition, enclosing, es) => One(definition) + One(enclosing) + Navigations(es)
       case OrgRewriteSubtree(_, _) => 0
       case OrgBuildSection(atEnd, _, startReported, _, table, source, _, _) =>
         One(atEnd) + One(startReported) + 1 + One(table) + One(source)
       case _ => Navigations(w.evaluations))
    case Validating => if w.OrgBuildSection? then 2 else 1
    case Asking => |Namings(w)|
    case Evaluating => |Expectations(w)|
  }

  // ---------------------------------------------------------------- what a run shows

  /** The evaluation came to an end, with the value that was expected if one was. */
  ghost predicate AsExpected(e: Sent, expected: Option<Text>) {
    && Succeeded(e) && e.answer.value.findings.completed
    && (expected.Some? ==> e.answer.value.findings.value == expected.value)
  }

  ghost predicate AllAsExpected(es: seq<Sent>, expected: seq<Option<Text>>) {
    |es| == |expected| && forall k | 0 <= k < |es| :: AsExpected(es[k], expected[k])
  }

  ghost predicate AsNamed(e: Sent, insists: bool) {
    Succeeded(e) && (insists ==> e.answer.value.findings.named)
  }

  ghost predicate AllAsNamed(es: seq<Sent>, insists: seq<bool>) {
    |es| == |insists| && forall k | 0 <= k < |es| :: AsNamed(es[k], insists[k])
  }

  ghost predicate AllValid(es: seq<Sent>) {
    forall k | 0 <= k < |es| :: Succeeded(es[k]) && es[k].answer.value.findings.valid
  }

  ghost predicate AllReplaced(es: seq<Sent>) {
    forall k | 0 <= k < |es| :: Succeeded(es[k]) && es[k].answer.value.findings.replacements >= 1
  }

  /** The requests of one kind are as many as asked for, all answered, and the findings are the ones asked for. */
  ghost predicate HonouredIn(w: Workflow, es: seq<Sent>, kind: Kind) {
    && |es| == Number(w, kind) && AllAnswered(es)
    && match kind
       case Evaluating => AllAsExpected(es, Expectations(w))
       case Asking => AllAsNamed(es, Namings(w))
       case Validating => AllValid(es)
       case Commanding => w.RenameSymbol? ==> AllReplaced(es)
       case _ => true
  }

  /** Everything the caller asked for was done, and the editor's findings were the ones asked for. */
  ghost predicate Honoured(w: Workflow, run: seq<Sent>) {
    forall kind :: HonouredIn(w, Picked(run, kind), kind)
  }

  /** The last look found another name than the caller insisted on. */
  ghost predicate Misnamed(w: Workflow, run: seq<Sent>) {
    var es := Picked(run, Asking);
    && 0 < |es| <= |Namings(w)| && AllAsNamed(es[..|es| - 1], Namings(w)[..|es| - 1])
    && Succeeded(es[|es| - 1]) && Namings(w)[|es| - 1] && !es[|es| - 1].answer.value.findings.named
  }

  /** The last evaluation did not come to an end, or had another value than the expected one. */
  ghost predicate Unexpected(w: Workflow, run: seq<Sent>) {
    var es := Picked(run, Evaluating);
    && 0 < |es| <= |Expectations(w)| && AllAsExpected(es[..|es| - 1], Expectations(w)[..|es| - 1])
    && Succeeded(es[|es| - 1]) && !AsExpected(es[|es| - 1], Expectations(w)[|es| - 1])
  }

  ghost predicate Invalid(run: seq<Sent>) {
    var es := Picked(run, Validating);
    es != [] && AllValid(es[..|es| - 1]) && Succeeded(es[|es| - 1]) && !es[|es| - 1].answer.value.findings.valid
  }

  ghost predicate NothingReplaced(w: Workflow, run: seq<Sent>) {
    var es := Picked(run, Commanding);
    w.RenameSymbol? && |es| == 1 && Succeeded(es[0]) && es[0].answer.value.findings.replacements < 1
  }

  /** The editor's findings were not the ones asked for. */
  ghost predicate Declined(w: Workflow, run: seq<Sent>) {
    Misnamed(w, run) || Unexpected(w, run) || Invalid(run) || NothingReplaced(w, run)
  }
}
