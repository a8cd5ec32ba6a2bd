# Emacs Operator: verified core

A Dafny model of the parts of Emacs Operator whose correctness depends on more than one
function: a Lisp lexer and the project-wide renaming built on it, the transactional tool
router with its sessions, caches and tickets, message framing, unified diffs, the X11 key
sequence machine, and canonical JSON. `dafny verify dfyconfig.toml` verifies everything.

## How it is built

- **Text** (`CodeUnits`): JavaScript strings are sequences of UTF-16 code units.
- **Lexing and renaming** (`LispLexer`, `TokenMeaning`, `LispScanner`, `RenameLexing`, `RenameText`,
  `SymbolSemantics`, `ProjectRename`, `PlanIntegrity`): the scanner's loops are proved against a
  lexer that only looks ahead, and what its tokens are is said of the source again in `TokenMeaning`;
  the renaming theorem follows from comparing how both texts are cut.
  The lexer has two-unit lookahead, so a new name that starts with `#_` or `@`, or is `#`, can be
  read differently. The model keeps that behaviour and states exactly when renaming is safe: for
  one source (`RenameText.RenamePreservesLexing`) and for all sources (`RenameText.SafeForEverySource`).
- **Router** (`Bridge`, `BridgeEdits`, `Connection`, `WorkflowDemands`, `WorkflowScripts`, `Workflow`,
  `DiffEdit`, `Sessions`, `Isolation`, `ExpiringMap`, `Idempotency`, `Verification`, `Rerun`): the reference bridge is a class proved
  against a function from state and request to state and answer. Between two requests somebody
  else may edit; any request or answer may be lost. Workflows are lists of phases that insist on
  findings; the arguments of their requests are arbitrary, so the theorems hold for all of them. What a
  run has to show is said in `WorkflowDemands` of requests and answers alone. Requests, refused
  tool calls and writes to files are on record as ghost state, so an ending can be held against what
  really happened.
- **Framing** (`Framing`): one parser, generic in how a header is read, with the JavaScript and the
  Swift reader as instances. **Diffs** (`LineDiff`, `UnifiedDiff`, `DiffParser`): lines of any type
  first, then texts. **Canonical JSON** (`Decimal`, `CanonicalJson`, `JsonReader`, `PlanText`).
- **Keys** (`Injections`, `KeyPlans`, `KeyReasons`, `KeySequence`, `Utf8`, `Base64`): every injection may fail,
  and all of them are on record as ghost state, from which the keys that are down are computed; so is every
  look at the focus and the mapping. `KeyPlans` says which events and looks belong to a plan, `KeyReasons`
  why a run can end, and the methods of `KeySequence` are proved to make those.
- **Brackets and trees** (`BracketWords`, `BracketPartners`, `LispBalance`, `BracketFindings`,
  `StructureChecker`, `LispTree`, `ParameterInference`, `BindingForms`): which brackets a checker names is
  said without a stack. `Wrappers` and `Sequences` hold an option type and one fact about concatenation.

## Where code and expectation differ

- A renaming can change the token structure of the rest of a file (`RenameText.SafeForEverySource`).
- A diff's `newStart` is never read, so that swapping the sides of a diff need not undo it
  (`UnifiedDiff.MisplacedDoesNotSwap`); exactly when it does is `LineDiff.SwapRestoresExactly`.
- The start of a hunk that removes nothing means "insert in front of this line", where the usual reading
  is behind it (`UnifiedDiff.InsertionDiffers`, `LineDiff.InsertionAgrees`).
- An empty result of a diff gains a line (`UnifiedDiff.EmptyResultGrows`).
- A failing press behind an automatic shift leaves shift down, also at the end of a run
  (`Injections.ShiftLeftDown`, `KeyReasons.RunLeavesShiftDown`).
- Looking up a verification ticket can evict it (`Verification.FoundUnlessEvicted`), and evaluations
  whose answers are lost are not counted against `maxAttempts` (`Verification.LostAnswersAreUnbounded`).
- An array whose only item is undefined is hashed like the empty array (`CanonicalJson.ArraysCollide`).
- Attempt limits out of range are refused only after the first evaluation (`Rerun.RangeIsCheckedLate`).
- The reference bridge can number a rename journal like one that is still open, which is then lost
  (`Bridge.ApplyKeepsJournals`, `Bridge.OpenJournalLost`).
- An edit of the reference bridge at position zero counts from the end of the text (`BridgeEdits.InsertAtZero`).
- The base64 decoder accepts texts whose unused bits are not zero (`Base64.EncodesDecoded`).
- The failure of the rollback of a refused proposal is not caught, so no second rollback follows
  (`Workflow.EndedByRollback`).

## Model

| member | source | states |
|---|---|---|
| `LispScanner.ScanLisp` | packages/refactor-intelligence/src/scanner.ts:44-101 | the scanning loop returns exactly the tokens and diagnostics read off the lexemes of the text, with offsets, for every source; without trivia it returns the tokens with trivia minus those of type comment and string, in order |
| `TokenMeaning.TriviaLeftOut` | packages/refactor-intelligence/src/scanner.ts:50-76 | what the trivia setting leaves out: exactly the tokens of type comment and string, said of types alone |
| `TokenMeaning.TokensCover` | packages/refactor-intelligence/src/scanner.ts:44-101 | the tokens with trivia, and the white space between them, are the source; each is written as its type says: comments from `;` to the end of their line or from `#|`, strings in quotes, delimiters as themselves, atoms without white space, and numbers are those atoms that match the numeral pattern |
| `TokenMeaning.NumeralMeans` | packages/refactor-intelligence/src/scanner.ts:97 | the numeral pattern by its parts: an optional sign, digits, and an optional fraction |
| `TokenMeaning.DiagnosticsMean` | packages/refactor-intelligence/src/scanner.ts:50-84 | every diagnostic is about a token: a block comment or a string that reaches the end of the source, or a `#_`; and every `#_` has one |
| `LispScanner.ScanOne` | packages/refactor-intelligence/src/scanner.ts:50-97 | one turn of the loop recognises the lexeme the specification puts at that position, and moves behind it |
| `LispScanner.SkipBlockComment` | packages/refactor-intelligence/src/scanner.ts:33-42 | nested block comments: the end and whether the comment closes |
| `LispScanner.SkipString` | packages/refactor-intelligence/src/scanner.ts:67-74 | strings with escapes: the end, and whether the string closes; a backslash at the end of the text leaves it open |
| `LispScanner.SkipAtom` | packages/refactor-intelligence/src/scanner.ts:90-94 | an atom ends at a space, a delimiter, or in front of a block comment |
| `LispLexer.FlattenLex` | packages/refactor-intelligence/src/scanner.ts:44-101 | scanning loses nothing: the lexemes side by side are the source |
| `LispScanner.PositionFor` | packages/refactor-intelligence/src/scanner.ts:23-31 | the loop computes line and column of an offset |
| `LispScanner.LineMeans` | packages/refactor-intelligence/src/scanner.ts:23-31 | the line is one more than the newlines in front |
| `LispScanner.ColumnMeans` | packages/refactor-intelligence/src/scanner.ts:23-31 | the column counts the units behind the last newline |
| `RenameLexing.WellCutIsLex` | packages/refactor-intelligence/src/scanner.ts:44-101 | a text can be cut in only one way that agrees with the scanner at every step |
| `RenameLexing.HeadAfterRename` | packages/refactor-intelligence/src/scanner.ts:79-98 | in a renamed text the lexer cuts off the renamed lexeme, unless one of three hazards of two-unit lookahead applies; then it cuts off a reader token |
| `RenameText.RenamePreservesLexing` | packages/refactor-intelligence/src/rename-plan.ts:19-25 | for every source and every new name that is a valid symbol without a bar: scanning the renamed text gives the old tokens and diagnostics in order, renamed and moved by the growth in front of them, if and only if no occurrence is hazardous |
| `RenameText.SafeForEverySource` | packages/refactor-intelligence/src/scanner.ts:79-97 | a pair of names is safe on every source exactly when the new name does not start with `#_`, starts with `@` only if the old one does, and is `#` only if the old one is; or the old name starts with `#_` and so never occurs |
| `RenameText.RoundTrip` | packages/refactor-intelligence/src/rename-plan.ts:19-25 | without a hazardous occurrence, renaming forth and back restores the source character by character exactly when the new name was not used in it (or the names are equal) |
| `RenameText.FreshNameRoundTrip` | packages/refactor-intelligence/src/rename-plan.ts:19-25 | with an unused new name, the source comes back exactly when no occurrence was hazardous |
| `ProjectRename.EditsFor` | packages/refactor-intelligence/src/rename-plan.ts:19-25 | the edits of a file are those of its symbol tokens that equal the old name, each with the line and column of its start |
| `ProjectRename.EditsForRename` | packages/refactor-intelligence/src/rename-plan.ts:69-77 | the edits made for a text are disjoint, all match it, and substituting them is the renaming of its lexemes |
| `ProjectRename.ApplyEdits` | packages/refactor-intelligence/src/rename-plan.ts:69-77 | right-to-left splicing computes the splicing function; when every edit replaces something it succeeds exactly on the planned content with every old text in place, and then equals replacing all edits at once; a stale edit is the rightmost one that does not match |
| `ProjectRename.SpliceIsSubstitute` | packages/refactor-intelligence/src/rename-plan.ts:72-75 | splicing one edit after the other from the right is replacing all at once, and fails exactly when some old text is not in place |
| `ProjectRename.EmptyEditsAppend` | packages/refactor-intelligence/src/rename-plan.ts:73-74 | edits of an empty old text only match behind the end, and then append |
| `ProjectRename.DescendingIsReversed` | packages/refactor-intelligence/src/rename-plan.ts:72 | the descending sort of disjoint edits is their reversal |
| `ProjectRename.SpliceOne` | packages/refactor-intelligence/src/rename-plan.ts:73-74 | replacing one more edit to the left of those done is what replacing it in the original would have done, and it matches exactly when it matches the original |
| `ProjectRename.CollectEdits` | packages/refactor-intelligence/src/rename-plan.ts:33-42 | the planning loop succeeds exactly when all files lie inside the root and the totals stay within the limits, and lists the files with occurrences and the total |
| `ProjectRename.CreateProjectRenamePlan` | packages/refactor-intelligence/src/rename-plan.ts:26-53 | a plan is made exactly for an accepted pair of names and files within the limits; it is the body with all its fields, the files with occurrences under the seal of that body, and it passes validation; for a total preorder of paths its files are in order of their paths, and those that compare equal in the order in which they were given |
| `ProjectRename.SortedByPath` | packages/refactor-intelligence/src/rename-plan.ts:43 | sorting the planned files loses none and adds none |
| `ProjectRename.SortsByPath` | packages/refactor-intelligence/src/rename-plan.ts:43 | the sort puts the paths in order and keeps the order of those that compare equal |
| `ProjectRename.OrderIrrelevant` | packages/refactor-intelligence/src/rename-plan.ts:78-86 | files with different paths may be applied in any order: same outcome, same contents |
| `ProjectRename.ApplyAllOverlays` | packages/refactor-intelligence/src/rename-plan.ts:78-86 | applying the files one after the other succeeds exactly when each fits the contents as they were, and overlays all new contents |
| `ProjectRename.ValidateRenamePlan` | packages/refactor-intelligence/src/rename-plan.ts:54-68 | a plan is valid exactly when its version, kind, seal and every edit are in order, and which refusal comes first |
| `ProjectRename.ApplyRenamePlanToMap` | packages/refactor-intelligence/src/rename-plan.ts:78-86 | a plan is refused exactly when it is not valid; otherwise the output is all files applied one after the other, or an error without output exactly when one of them cannot be |
| `ProjectRename.PlanApplies` | packages/refactor-intelligence/src/rename-plan.ts:78-86 | the planned files are never stale on the contents they were made from, and applying them renames every file |
| `ProjectRename.FreshPlanApplies` | packages/refactor-intelligence/src/rename-plan.ts:43-86 | the same for the files as the plan sorts them |
| `ProjectRename.FreshPlanValid` | packages/refactor-intelligence/src/rename-plan.ts:54-68 | a fresh plan passes validation: version, kind, seal and every edit |
| `ProjectRename.Preflight` | packages/refactor-intelligence/src/rename-plan.ts:90-96 | the preflight succeeds exactly when every target resolves, is there, and its planned content and edits match; all replacements are computed from the contents before any write |
| `ProjectRename.WriteAll` | packages/refactor-intelligence/src/rename-plan.ts:98-108 | the writes that happen: every target replaced in order, or the targets up to one whose write failed and then, the last one first, the writes that put them back; in the first case every target holds its replacement, in the second every file is as before except those whose restoring write is on record as failed |
| `ProjectRename.RestoreWritten` | packages/refactor-intelligence/src/rename-plan.ts:106 | the recovery writes every written file back once, the last one first, whatever happened to the others; afterwards every file but those whose write failed holds its original |
| `ProjectRename.ApplyRenamePlanToFilesystem` | packages/refactor-intelligence/src/rename-plan.ts:87-110 | all-or-nothing over the whole file tree: which of the four endings, exactly when; nothing is written without a valid plan, a complete preflight and saving; after a failed write every file is as before except targets whose restoring write is on record as failed, so all of them when none is |
| `SymbolSemantics.ReconstructDescribed` | packages/refactor-intelligence/src/symbol-semantics.ts:35-108 | printing the parts of a renameable symbol gives the symbol back, in all four languages |
| `SymbolSemantics.DescribeReconstructed` | packages/refactor-intelligence/src/symbol-semantics.ts:35-108 | reading a printed qualified symbol with a new leaf gives the old qualification with that leaf, whenever the result is not too long |
| `SymbolSemantics.AcceptedNames` | packages/refactor-intelligence/src/symbol-semantics.ts:110-158 | an accepted rename has a valid target whose language-level identity differs; under the qualification policies kind, separator and qualifier are kept (up to case in Common Lisp) and both names print back |
| `SymbolSemantics.UnaskedIsExact` | packages/refactor-intelligence/src/symbol-semantics.ts:112-139 | in the two languages without packages, when no policy is asked for, exactly the pairs of different symbols are accepted that are no keywords and hold no `|` or backslash, and the new name is written as given |
| `SymbolSemantics.UnaskedPreserves` | packages/refactor-intelligence/src/symbol-semantics.ts:112-149 | in the other two, when no policy is asked for, an accepted name is written as given and kind, separator and qualifier stay |
| `SymbolSemantics.LeafOnlyAccepts` | packages/refactor-intelligence/src/symbol-semantics.ts:122-149 | exactly which leaves are accepted under `leaf_only`, and what the effective name is then |
| `CanonicalJson.CanonicalExactly` | packages/benchmark/src/hash.ts:7-15 | two values have the same canonical text if and only if they are the same JSON value, key order and undefined members aside, and `[undefined]` read as the empty array |
| `CanonicalJson.ArraysCollide` | packages/benchmark/src/hash.ts:13 | different arrays have the same text in one case only: no item, and one undefined item |
| `CanonicalJson.UnescapeInverts` | packages/benchmark/src/hash.ts:10 | the string escaping of section 7 of RFC 8259 is undone by its reader |
| `CanonicalJson.SortedMembersSorted` | packages/benchmark/src/hash.ts:14 | members are encoded in strictly ascending order of their keys |
| `CanonicalJson.Splits` | packages/benchmark/src/hash.ts:7-15 | no encoding is a proper prefix of another in front of a terminator: equal texts split into equal values and equal rests |
| `JsonReader.CanonicalIsJson` | packages/benchmark/src/hash.ts:7-15 | a reader of the grammar of sections 2 to 7 of RFC 8259, which has its own literals and reads arrays and objects, gets the value back from the canonical text, with nothing left over, if and only if the value has a JSON text: no array with an undefined item beside others, and numbers printed as JSON numbers |
| `JsonReader.ReadsBack` | packages/benchmark/src/hash.ts:7-15 | the same reader in front of any text that cannot continue a value: it stops exactly behind the canonical text |
| `PlanText.PlanTextIsJson` | packages/refactor-intelligence/src/rename-plan.ts:9-13 | the text that is hashed into a plan id is JSON for the body of the plan |
| `PlanIntegrity.SealFixesBody` | packages/refactor-intelligence/src/rename-plan.ts:44-53 | with a hash without collisions two plan bodies, all fields included, have the same plan id if and only if they are equal |
| `PlanIntegrity.IdFixesValidPlan` | packages/refactor-intelligence/src/rename-plan.ts:54-58 | then validation accepts a plan id for one plan only |
| `PlanIntegrity.PlanIsCarriedOut` | packages/refactor-intelligence/src/rename-plan.ts:26-86 | from plan to result: a made plan is valid, whatever valid plan comes back under its id is that plan, and applied to unchanged contents it renames every file |
| `PlanIntegrity.CarriedOutLexes` | packages/refactor-intelligence/src/rename-plan.ts:26-86 | from plan to tokens: such a plan leaves at the place of every file its renamed text, which scans to the renamed tokens and diagnostics exactly when no occurrence in that file is hazardous; all other contents stay |
| `Decimal.IntTextInjective` | packages/benchmark/src/hash.ts:10 | different integers print differently |
| `Framing.ContentLengthParser.Push` | packages/bridge-client/src/framing.ts:8-45 | a push returns the messages of the frames complete so far, or the error of the first bad frame, and keeps exactly the rest |
| `Framing.DrainInTwo` | packages/bridge-client/src/framing.ts:13-43 | pushing a whole is pushing its first part and then its second |
| `Framing.ChunkingIrrelevant` | packages/bridge-client/src/framing.ts:8-45 | every way of cutting a byte stream into chunks yields the same messages and rest, and the same error if there is one |
| `Framing.FramesSurvive` | packages/bridge-client/src/framing.ts:52-56 | encoded frames within the limit, cut anywhere, decode to exactly their bodies with nothing left over |
| `Framing.FramesSurviveBoth` | apps/macos-host/Sources/IPC/ContentLengthFraming.swift:17-45 | the same for the JavaScript and the Swift reader of the header, so each side reads what the other writes |
| `LineDiff.ApplyToLines` | packages/protocol/src/unifiedDiff.ts:47-97 | the loops over hunks and lines compute the recursive specification, errors included |
| `LineDiff.ApplyHunkLines` | packages/protocol/src/unifiedDiff.ts:60-87 | one hunk: which lines it consumes and produces, and where it fails |
| `LineDiff.DiffReplaces` | packages/protocol/src/unifiedDiff.ts:51-97 | applied hunks replace their old sides by their new sides and keep all other lines, in order |
| `LineDiff.ResultLength` | packages/protocol/src/unifiedDiff.ts:47-97 | the result has as many lines as the original minus the removals plus the additions |
| `LineDiff.SwapRestores` | packages/protocol/src/unifiedDiff.ts:47-97 | hunks whose new start is the number of lines already produced plus one are undone by the hunks with their sides swapped |
| `LineDiff.SwapRestoresExactly` | packages/protocol/src/unifiedDiff.ts:47-97 | when no line occurs twice, before or after, and no hunk is empty, swapping the sides restores the original if and only if every hunk lands where its new start says; a hunk that leaves nothing at the end of the result may also name any place behind it |
| `LineDiff.SwapRestoresIfPlaced` | packages/protocol/src/unifiedDiff.ts:47-97 | for new starts within the result this is: if and only if every new start is the number of lines already produced plus one |
| `UnifiedDiff.MisplacedDoesNotSwap` | packages/protocol/src/unifiedDiff.ts:54-57 | a concrete diff whose new start, which is never read, is wrong, and which swapping does not undo |
| `UnifiedDiff.RepeatedLinesSwap` | packages/protocol/src/unifiedDiff.ts:54-57 | a concrete misplaced diff that swapping does undo, because its lines repeat |
| `LineDiff.InsertsInFront` | packages/protocol/src/unifiedDiff.ts:52-57 | a hunk that removes nothing inserts in front of the line its old start names, or at the end |
| `LineDiff.InsertionAgrees` | packages/protocol/src/unifiedDiff.ts:52-57 | inserting behind that line instead gives the same lines if and only if the old start is 0 or all added lines equal it |
| `UnifiedDiff.InsertionDiffers` | packages/protocol/src/unifiedDiff.ts:52-57 | a concrete insertion for which the two differ |
| `UnifiedDiff.SwapRestoresText` | packages/protocol/src/unifiedDiff.ts:47-100 | for every text, a well-placed diff is undone by its swapped hunks if and only if neither the text nor the result has a CR LF and the result can be told from its lines |
| `UnifiedDiff.EmptyResultGrows` | packages/protocol/src/unifiedDiff.ts:98-99 | an empty result becomes an empty line that swapping does not take back |
| `UnifiedDiff.TakenApart` | packages/protocol/src/unifiedDiff.ts:48-50 | the lines of a text put together again are the text with every CR LF as LF |
| `UnifiedDiff.ReadBack` | packages/protocol/src/unifiedDiff.ts:48-50 | what lines become when their text is read again: each loses one carriage return in front of a newline |
| `DiffParser.ParseHunks` | packages/protocol/src/unifiedDiff.ts:18-45 | the parsing loop computes the recursive specification, its errors included |
| `DiffParser.ApplyUnifiedDiff` | packages/protocol/src/unifiedDiff.ts:47-100 | parsing and applying in one call |
| `DiffParser.ParseInvertsPrint` | packages/protocol/src/unifiedDiff.ts:16-45 | printed hunks parse back to themselves, with the counts of every header written or, where they are one, left out, and with any heading behind the header |
| `Bridge.FakeEmacsBridge.Handle` | packages/test-harness/src/fakeBridge.ts:58-436 | the reference bridge's answer and new state for every request |
| `Bridge.RequestAdvancesTick` | packages/test-harness/src/fakeBridge.ts:127-151 | no request turns the tick back, and none changes the text without advancing it |
| `Bridge.TickFixesText` | packages/test-harness/src/fakeBridge.ts:563-573 | two states of one run, requests and outside edits in any order, have the same text when they have the same tick |
| `BridgeEdits.EditMeans` | packages/test-harness/src/fakeBridge.ts:129-142 | positions count from one: within the buffer an edit replaces exactly what stands between two of them, and without a position it inserts in front |
| `BridgeEdits.DeleteUndoesInsert` | packages/test-harness/src/fakeBridge.ts:129-142 | what was inserted anywhere can be deleted again |
| `BridgeEdits.ReplaceUndoesReplace` | packages/test-harness/src/fakeBridge.ts:133-137 | a range that was replaced can be put back |
| `BridgeEdits.InsertAtZero` | packages/test-harness/src/fakeBridge.ts:129-132 | an insertion at position zero lands in front of the last unit, because a negative bound counts from the end |
| `BridgeEdits.ReplaceAllMeans` | packages/test-harness/src/fakeBridge.ts:312 | replacing every occurrence cuts the text at the occurrences found from the left, none of which starts within a piece, and joins the pieces with the new text |
| `Bridge.ApplyKeepsJournals` | packages/test-harness/src/fakeBridge.ts:307-316 | applying a rename that fits adds a journal exactly when the number of open journals plus one is not the id of an open one; otherwise that journal is replaced, which loses it unless it had the same texts as the new one |
| `Bridge.OpenJournalLost` | packages/test-harness/src/fakeBridge.ts:307-330 | a run from the initial state that loses an open journal: two renames, a commit of the first, a third rename |
| `Connection.Editor.Send` | packages/mcp-server/src/tools/toolRouter.ts:791-805 | a request may be lost before or after its effect, with an outside edit in front of it; an answer is the bridge's answer |
| `Connection.CheckpointSurvives` | packages/test-harness/src/fakeBridge.ts:406-423 | until the next creation or rollback the saved text stays, or is given up by a commit |
| `Connection.RollbackRestores` | packages/test-harness/src/fakeBridge.ts:406-423 | a successful rollback restores the text the buffer had when the checkpoint was created, whatever came in between |
| `DiffEdit.EditByDiff` | packages/mcp-server/src/tools/toolRouter.ts:672-692 | every request of the call: at most one of them is an edit, it replaces what was read by what the diff makes of it, and all others only look and keep the text; with the default precondition the edit applies exactly the diff to the text it meets or changes nothing, even when its answer is lost; the call succeeds exactly when the edit and the look behind it did |
| `DiffEdit.GuardedEditNeverLoses` | packages/mcp-server/src/tools/toolRouter.ts:690 | an edit computed from a text never overwrites another change, over all runs, if and only if it expects a tick no later than the one it was computed at |
| `Workflow.Router.Step` | packages/mcp-server/src/tools/toolRouter.ts:791-805 | a tool call makes its main request at most once, among requests that only look, and answers exactly when it was not refused and all of them succeeded; every call is on record, the refused ones too |
| `Workflow.Router.RunPhases` | packages/mcp-server/src/tools/toolRouter.ts:945-971 | phases run in order, evaluations with their expected values; a completed run fulfilled every one of them, a rejected one all in front of the phase whose finding was not accepted, and a throw means a tool call that did not get through or an answer that could not be used |
| `Workflow.Router.RunTransaction` | packages/mcp-server/src/tools/toolRouter.ts:1348-1396 | how a transaction can end: which tool calls were made, which checkpoint requests they sent in which order, what they left behind, and why it is not committed; a rollback that failed was called once, at the end, and was refused, lost, answered with a failure, or not followed by an answered look |
| `Workflow.Router.ExecuteSemanticWorkflow` | packages/mcp-server/src/tools/toolRouter.ts:973-990 | any failing step, any lost answer, any outside edit: a committed run holds, said of its requests and answers alone, one successful evaluation for each one asked for, in order, completed and with the expected value where one was named, likewise the names, replacements, edits and commands, and it was validated in between and committed once; rolled back or aborted means one rollback call, answered, and the checkpoint's text; a run rolled back shows the finding it was refused for, and every other ending short of the commit has a tool call that did not get through, an answer that could not be used, or another name on record; a failed rollback means one rollback call that was not answered |
| `WorkflowScripts.ScriptValidates` | packages/mcp-server/src/tools/toolRouter.ts:992-1626 | each of the eight workflows validates after its last change and before anything is checked or evaluated |
| `WorkflowScripts.ScriptByKind` | packages/mcp-server/src/tools/toolRouter.ts:937-1626 | what the steps of each workflow are, by kind and in order: the evaluations are those asked for with their expected values, the names looked at are those insisted on, the edits, commands, moves and validations are as many as the workflow takes |
| `WorkflowScripts.ScriptHonours` | packages/mcp-server/src/tools/toolRouter.ts:945-1626 | a run that fulfilled the steps of a workflow holds, in order and nothing else of the kind, one successful evaluation for each one asked for, completed and with the expected value where one was named, the names that were insisted on, at least one replacement for a renaming, and a valid validation |
| `WorkflowScripts.ScriptDeclines` | packages/mcp-server/src/tools/toolRouter.ts:945-1626 | a run that was refused shows the finding: an evaluation that was not completed or had another value, another name, no replacement, or a validation that failed |
| `Workflow.CommittedIsValidated` | packages/mcp-server/src/tools/toolRouter.ts:992-1626 | after the successful validation of a committed run no request of the router changes the text |
| `Workflow.EndedByRollback` | packages/mcp-server/src/tools/toolRouter.ts:870-910 | the end after a failure or a refused proposal: one rollback request at most, for a refused proposal a finding that a phase does not accept, and the checkpoint's text whenever the rollback was answered |
| `Workflow.RolledBackRun` | packages/mcp-server/src/tools/toolRouter.ts:870-880 | a rollback that is answered left the text of the checkpoint, even after a commit that got lost |
| `Sessions.SessionManager.Get` | packages/mcp-server/src/sessions/sessionManager.ts:52-62 | an unknown session is refused, an expired one closed, any other one marked as used |
| `Sessions.SessionManager.UpdateTarget` | packages/mcp-server/src/sessions/sessionManager.ts:64-81 | the target of a live session is replaced |
| `Sessions.SessionManager.AcquireMutation` | packages/mcp-server/src/sessions/sessionManager.ts:83-93 | the lease of the session's instance is taken unless another session has it |
| `Sessions.SessionManager.Close` | packages/mcp-server/src/sessions/sessionManager.ts:95-101 | a closed session gives up its lease and nothing else |
| `Sessions.SessionManager.PruneExpired` | packages/mcp-server/src/sessions/sessionManager.ts:124-129 | exactly the expired sessions are closed, in whatever order they are visited |
| `Sessions.OperationKeeps` | packages/mcp-server/src/sessions/sessionManager.ts:26-129 | every operation keeps: leases belong to live sessions of their instance and stay with a living owner; sessions keep instance and profile |
| `Sessions.LeaseKeeps` | packages/mcp-server/src/sessions/sessionManager.ts:83-93 | a lease is granted only to a live session, and only when it is free or already its own |
| `Isolation.OnlyLeaseHoldersChangeText` | packages/mcp-server/src/tools/toolRouter.ts:399-741 | one call changes the text of an instance only for a live session of that instance whose profile allows mutations and which then has the lease |
| `Isolation.LeaseIsolates` | packages/mcp-server/src/tools/toolRouter.ts:399-741 | over any run and any clock, while the lease holder of an instance is neither closed nor found expired, the router changes the instance's text only in that session's calls |
| `Isolation.LeaseMovesAfterTheOwner` | packages/mcp-server/src/sessions/sessionManager.ts:83-101 | a lease passes to another session only after its owner is gone, and the owner never comes back |
| `Isolation.RunEvolves` | packages/mcp-server/src/sessions/sessionManager.ts:26-129 | the guarantees of the session manager hold between any two moments of a run of tool calls |
| `Idempotency.IdempotencyCache.Get` | packages/mcp-server/src/idempotency.ts:21-29 | the hit, or a miss that deletes an expired entry |
| `Idempotency.IdempotencyCache.Set` | packages/mcp-server/src/idempotency.ts:31-45 | expired entries and the key's old entry go, the oldest make room, the new entry comes last |
| `Idempotency.GetReturnsLastPut` | packages/mcp-server/src/idempotency.ts:15-45 | with a clock that does not go back, `get` returns the last value put under the key exactly when it is younger than the time to live and fewer than `maxEntries` other keys were put since |
| `Idempotency.Call` | packages/mcp-server/src/tools/toolRouter.ts:173-203 | a tool is dispatched exactly when the last answer under its key is not fresh any more, otherwise that answer is returned; while it is dispatched any other calls, its own nested ones included, may use the cache, and its answer is the last one put under its key afterwards |
| `Idempotency.CacheKeysDiffer` | packages/mcp-server/src/tools/toolRouter.ts:178 | tool names without a colon never share a cache key |
| `ExpiringMap.TrimKeepsFresh` | packages/mcp-server/src/idempotency.ts:40-43 | making room pushes an entry out exactly when the newer entries fill the room that is left |
| `ExpiringMap.DropExpired` | packages/mcp-server/src/idempotency.ts:15-19 | the pruning loop |
| `ExpiringMap.MakeRoom` | packages/mcp-server/src/idempotency.ts:40-43 | the eviction loop |
| `Verification.VerificationTicketManager.Get` | packages/mcp-server/src/verificationTickets.ts:64-70 | a ticket is looked up after pruning, and only for its own session |
| `Verification.VerificationTicketManager.Append` | packages/mcp-server/src/verificationTickets.ts:72-77 | an attempt is added in place and the ticket's time starts again, unless it is gone |
| `Verification.FoundUnlessEvicted` | packages/mcp-server/src/verificationTickets.ts:38-48 | looking up evicts: an unexpired ticket is found exactly when fewer than `maxTickets` - 1 unexpired ones follow it |
| `Verification.StopsUnlessAllowed` | packages/mcp-server/src/tools/toolRouter.ts:504-537 | the checks of a rerun let exactly the allowed repetitions through |
| `Verification.OneReason` | packages/mcp-server/src/tools/toolRouter.ts:504-537 | which reason a refusal gives is determined: the first of completed, attempts spent, risk not approved, hash unknown, place unknown, other place, same source |
| `Verification.VerificationTool.RepeatVerification` | packages/mcp-server/src/tools/toolRouter.ts:503-543 | an evaluation is asked for if and only if the ticket can be fetched, its last attempt failed, attempts are left, the risk is low or approved, and the source has another hash at the same start; the reason given otherwise is the first one that applies |
| `Verification.UseKeepsSound` | packages/mcp-server/src/tools/toolRouter.ts:447-543 | every use keeps tickets and records in agreement and every repetition guarded |
| `Verification.RunIsBounded` | packages/mcp-server/src/tools/toolRouter.ts:447-543 | over any run, for every ticket there ever was: no more evaluations than allowed, but for one more per lost answer; only the last answered one complete; no second one unless `maxAttempts` is at least two and the risk low or approved |
| `Verification.LostAnswersAreUnbounded` | packages/mcp-server/src/tools/toolRouter.ts:503-543 | for every ticket that allows a second attempt and every number there is a run from the empty state that evaluates that often: an evaluation whose answer is lost is not counted |
| `Rerun.RunGuardedVerification` | packages/refactor-intelligence/src/integration.ts:28-39 | the loop ends; every attempt but the first was asked for, and the reported reason is the decision on all of them |
| `Rerun.AskedForIsBounded` | packages/refactor-intelligence/src/rerun.ts:7-19 | at most `maxAttempts` attempts, only the last one complete, all but the last with different fingerprints, neighbours with a different source or condition |
| `Rerun.RangeIsCheckedLate` | packages/refactor-intelligence/src/rerun.ts:8-9 | limits out of range are only refused once there is an attempt, so one evaluation has already run |
| `KeySequence.HeldKeys.Add` | apps/linux-host/native/x11_helper.c:584-589 | a key is added unless it is held already or the table is full; pressed codes stay distinct |
| `KeySequence.HeldKeys.Contains` | apps/linux-host/native/x11_helper.c:591-596 | whether the key is held |
| `KeySequence.HeldKeys.Remove` | apps/linux-host/native/x11_helper.c:598-606 | the key is no longer held; its entry is not used again |
| `KeySequence.HeldKeys.ReleaseAll` | apps/linux-host/native/x11_helper.c:608-613 | every held key is released once, the newest first, whether or not that works, and nothing is held afterwards |
| `KeySequence.Injector.CollectModifiers` | apps/linux-host/native/x11_helper.c:531-560 | the keycodes of a modifier list, or a refusal, within the buffer of sixteen |
| `KeySequence.Injector.PressCodes` | apps/linux-host/native/x11_helper.c:561-569 | the events: all modifiers pressed, or those up to one that failed and then the releases of those, the last one first |
| `KeySequence.Injector.ReleaseCodes` | apps/linux-host/native/x11_helper.c:570-579 | every modifier is released once, the last one first; the call succeeds exactly when all releases did |
| `KeySequence.Injector.TapSymbol` | apps/linux-host/native/x11_helper.c:615-648 | the events of a tap: the key down and up, with shift around it where the symbol needs it; when the key fails, shift is not released |
| `Injections.ShiftLeftDown` | apps/linux-host/native/x11_helper.c:615-648 | such a tap leaves shift down if and only if the press of shift came through and one of the injections behind it failed |
| `KeyReasons.RunLeavesShiftDown` | apps/linux-host/native/x11_helper.c:951-978 | a whole run of a line that taps a shifted symbol once leaves shift down under the same condition, although what is held is released at its end |
| `KeyReasons.ShiftStaysDown` | apps/linux-host/native/x11_helper.c:951-978 | such a run: shift goes down, the press of the key fails, and shift is down afterwards |
| `KeySequence.Injector.HoldSymbol` | apps/linux-host/native/x11_helper.c:625-636 | a key pressed to stay is tracked, once and while there is room, which is decided from the injections so far; the branch that cannot track it is dead |
| `KeySequence.Injector.LetGo` | apps/linux-host/native/x11_helper.c:637-641 | a key_up needs a key_down that is still in effect, and undoes it when it comes off |
| `KeySequence.Injector.SendText` | apps/linux-host/native/x11_helper.c:718-744 | the events of a text and the looks at focus and mapping: its characters are tapped in turn, on a key of their own or the scratch key; typing stops in front of a character only when it is cancelled, a look found the focus lost, or the bytes are malformed, and behind one only when that failed; the call succeeds exactly when the text was typed to its end or cancelled |
| `KeySequence.Injector.SendWithModifiers` | apps/linux-host/native/x11_helper.c:837-848 | the events of a key with modifiers: these are pressed in order, or taken back; once down, the key event of the line follows and they are released in reverse order whatever became of it; the call succeeds exactly when the key event and all releases did |
| `KeySequence.Injector.ExecuteEvent` | apps/linux-host/native/x11_helper.c:805-852 | the events and looks of a line: a malformed one sends nothing; otherwise its text or key is sent as often as it says, in turn, and fewer times only after a repetition that was not carried out to its end, a cancellation, or a look that found the focus lost |
| `KeySequence.Injector.CommandSequence` | apps/linux-host/native/x11_helper.c:951-978 | for every plan, every failing injection, every cancellation and loss of focus: the events are those of the lines in order, without a gap up to the first line that is not carried out to its end, and then the releases of the keys that are still kept, each once, the newest first; behind a look that found the focus lost nothing of the plan is sent; a run fails only for a cause on record; it succeeds exactly when all lines were carried out or it was cancelled, and nothing was left to release unless it was; a key is down at the end only if it was down before, or a release of it failed after its last press that came through, or it is the shift that a tap pressed by itself and whose key then failed; if no injection failed, only if it was down before |
| `KeyReasons.StopsForAReason` | apps/linux-host/native/x11_helper.c:718-978 | why a run ends: one carried out to its end had only injections that came off and kept the focus at every look; any other was cancelled or has its cause on record as the last thing it met: a failed injection, a lost focus or a mapping that could not be read, behind which nothing of the plan is sent, or a line that is malformed or out of track, or too many lines |
| `KeyReasons.NothingMissing` | apps/linux-host/native/x11_helper.c:718-978 | with the focus kept, every injection working, well-formed lines and no cancellation every event of every line is sent |
| `Utf8.AcceptsExactly` | apps/linux-host/native/x11_helper.c:694-716 | the decoder accepts exactly the byte strings that start with the encoding of a Unicode scalar value other than U+0000, as in sections 3 and 4 of RFC 3629 |
| `Utf8.AcceptsOnlyEncodings` | apps/linux-host/native/x11_helper.c:694-716 | an accepted code point encodes to the bytes it was read from, at least one |
| `Utf8.AcceptsEveryEncoding` | apps/linux-host/native/x11_helper.c:694-716 | every encoded scalar value but U+0000 is read back, whatever follows |
| `Utf8.DecodeText` | apps/linux-host/native/x11_helper.c:718-731 | decoding a text stops at its end or at the first malformed sequence, and encoding gives the consumed bytes back |
| `Base64.DecodeText` | apps/linux-host/native/x11_helper.c:755-790 | the loop over the output buffer computes the group-wise specification, stays inside the buffer, and its final length check never fails |
| `Base64.DecodesEncoding` | apps/linux-host/native/x11_helper.c:755-790 | decoding inverts the encoder of section 4 of RFC 4648 |
| `Base64.EncodesDecoded` | apps/linux-host/native/x11_helper.c:755-790 | an accepted text encodes back to itself exactly when the bits no byte takes are zero; the decoder does not check them |
| `BracketWords.MatchesIsDyck` | packages/refactor-intelligence/src/scanner.ts:109-131 | matching with a stack accepts exactly the words of the bracket grammar, for three kinds of brackets |
| `LispBalance.CheckLispBalance` | packages/refactor-intelligence/src/scanner.ts:103-133 | balanced exactly when scanning raised no diagnostic and the bracket tokens form a balanced word; the brackets named are those of the row below |
| `LispBalance.MatchTokens` | packages/refactor-intelligence/src/scanner.ts:109-131 | every closing bracket without a partner, or with a partner of another shape, is named in order, then every opening one that is never closed, the last first; partners are said with heights, without a stack; none is named exactly when the brackets match |
| `StructureChecker.CheckLispBalance` | packages/benchmark/src/structure.ts:24-111 | the one-pass checker calls a text balanced exactly when its strings and comments end and the brackets outside of strings, comments and characters form a balanced word; it names exactly the closing brackets that leave no word of kept brackets that could still become balanced, what does not end, and the kept openers that are never closed, the last first |
| `StructureChecker.SkipStep` | packages/benchmark/src/structure.ts:36-51 | one character inside a comment or a string |
| `StructureChecker.CodeStep` | packages/benchmark/src/structure.ts:53-86 | one character, comment opening or character literal in code |
| `LispTree.BuildTree` | packages/refactor-intelligence/src/analysis.ts:15-33 | the loop with its stack of open nodes builds the specified tree |
| `LispTree.FlattenBuild` | packages/refactor-intelligence/src/analysis.ts:15-33 | the tree holds all tokens in order, except the closing brackets that close nothing |
| `LispTree.BalancedIsWellBuilt` | packages/refactor-intelligence/src/analysis.ts:15-33 | for balanced tokens nothing is lost and every node is closed by its own bracket |
| `LispTree.SpansNest` | packages/refactor-intelligence/src/analysis.ts:15-33 | in a closed tree spans nest, and siblings are disjoint and ordered |
| `LispTree.PathIsContaining` | packages/refactor-intelligence/src/analysis.ts:71-81 | for a selection that is not empty the path is exactly the nodes that contain it, the outermost first |
| `LispTree.PathInSource` | packages/refactor-intelligence/src/analysis.ts:71-92 | the same for any source with balanced brackets |
| `ParameterInference.Walk` | packages/refactor-intelligence/src/analysis.ts:131-143 | the recursive walk sends every eligible occurrence to one of the two lists, once |
| `ParameterInference.NotedInOrder` | packages/refactor-intelligence/src/analysis.ts:137-139 | a list kept without repetitions holds the elements in the order of their first occurrence |
| `BindingForms.FunctionBinds` | packages/refactor-intelligence/src/analysis.ts:51-55 | `lambda` and `fn` bind the names written, at any depth, in the node behind the word |
| `BindingForms.DefinitionBinds` | packages/refactor-intelligence/src/analysis.ts:56 | `defun` and its like bind the names written in the node behind the name |
| `BindingForms.LetBinds` | packages/refactor-intelligence/src/analysis.ts:57-67 | `let` and its like bind, in a vector, the names written at every second place, and otherwise those written first in each of the lists |
| `BindingForms.OthersBindNothing` | packages/refactor-intelligence/src/analysis.ts:51-69 | a list that starts with any other symbol binds nothing |
| `ParameterInference.InferExtractParameters` | packages/refactor-intelligence/src/analysis.ts:117-156 | every eligible symbol of the selection is a parameter when a binding is visible or known and unresolved otherwise, without repetitions, in order of first occurrence; the issues and the confidence reported |

## Left out

- Sockets, timers, processes, file permissions, discovery records, PNG, X11 and macOS library calls, the audit log and JSON envelopes: input and output, replaced by arbitrary outcomes where they matter.
- Acceptance scripts, command line, catalogue, benchmark scoring and statistics, Org parsing, Swift user interface: no property beside the ones above.
- SHA-256 and random identifiers: an injective function, and identifiers that are new.
- Error messages and details.
- LispScanner.ScanLisp: the class `\s` is written out for code units; the surrogate pairs of the `u` flag never belong to it.
- SymbolSemantics.DescribeReconstructed: `toUpperCase` is an arbitrary function, so nothing depends on Unicode case tables.
- ProjectRename.CreateProjectRenamePlan: the order of paths is an arbitrary comparison, the root is one that is resolved already, and the types of the arguments are taken for granted.
- ProjectRename.ApplyRenamePlanToFilesystem: temporary files left behind by a failed write, and other programs writing at the same time.
- CanonicalJson.CanonicalExactly: numbers are represented by the text JSON.stringify prints for them; members whose value is a function or a symbol.
- Framing.FramesSurviveBoth: spellings of a length other than plain digits are read by an arbitrary function; bodies stay bytes.
- Bridge.FakeEmacsBridge.Handle: what a command does to the text and where navigation ends are part of the request, so the string surgery of the single fake commands is not modelled, nor the second error frame that follows a failed precondition.
- Workflow.Router.ExecuteSemanticWorkflow: phases make arbitrary requests of their kind instead of those computed from the arguments, and an answer that cannot be used is one the model cannot look into; refusals by session, policy or lease are arbitrary failures here and modelled in Isolation.
- Isolation.LeaseIsolates: the path check of the policy engine, and capture, which changes no text.
- Sessions.SessionManager.PruneExpired: the order of visiting is arbitrary.
- KeySequence.Injector.CommandSequence: one keyboard layout during a plan, apart from the scratch key; lines are taken as read, so the size of the read buffer does not show; delays, the count of events sent and restoring the focus.
- Rerun.RunGuardedVerification: field values are compared as values, and the fingerprint stands for its hash.
- StructureChecker.CheckLispBalance: the positions given for a string or a comment that does not end, and lines and columns.
- LispTree.BuildTree: nodes are values, so links to parents and sharing of nodes are not modelled.
- ParameterInference.InferExtractParameters: names bound inside the selection form one flat set, as in the code; nothing is claimed about lexical scope.
