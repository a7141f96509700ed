# Verified model of the diagnosis core

A diagnosis run of this system takes a knowledge pack, projects it onto the deployed version, runs its
playbooks, lets a team of model-driven roles work on a shared state, executes read-only commands on the way,
and stores the run. This project models the parts of that in which correctness is not obvious from reading one
function, and proves what they are meant to guarantee. `dafny verify dfyconfig.toml` checks all of it.

Loops and objects of the source are methods and classes here; each is proved against a function of its inputs,
and the results are about those functions, for all inputs, all runs or all schedules.

## What is proved

1. **Version scoping, end to end** (`Versions`, `VersionRanges`, `RangeMeaning`, `Overlap`, `Expr`, `Packs`,
   `References`, `Validate`, `Resolve` and the modules on resolution, `Engine`, `PlaybookRuns`, `PlaybookOutput`,
   `AdmittedRuns`). Versions under zero padding are a dense total preorder, every operator and every usual spelling
   means what it says, and it is known exactly when the static overlap test errs. So in a pack that passes validation
   at most one variant of an id applies to any readable version, resolution is a filter, it is idempotent, closed
   and fully accounted for in both directions down to the single step, and no playbook run on the result can meet a
   missing signal or failure mode. What a run reports is given completely in terms of what was measured.
2. **Run stores** (`StoreKeys`, `Stores`, `StoreAgreement`, `RunStories`, `FileStore`). The object store and the file store
   reply as the in-memory store does: the former over every allowed history and paging, without ever writing a
   step key twice, the latter over every history with failed writes and crashes in between.
3. **The agent team** (`Notes`, `Workspace`, `BoardMeaning`, `Critique`, `Blackboard`, `BlackboardRuns`, `RoundCap`,
   `CapExample`, `Investigators`, `InvestigatorRuns`, `Overshoot`, `BudgetCuts`, `ReasoningLoop`). The blackboard
   loop ends without its cap, never stops before the report, and is cut by the cap in exactly known cases; concurrent
   investigators overrun their budgets by an exact amount and no more, are stopped only by a budget that is spent,
   never block each other, and leave notes whose sorted order hides the schedule.
4. **Remote commands** (`WebSocket`, `Messages`, `RemoteCommand`). Frames and messages of RFC 6455 are read
   back from exactly the bytes that carry them, and the output of a command is split by channel under a byte
   budget, from the wire to the result. When a nil error hides that the stream was cut off is settled exactly.
5. **Model replies** (`Json`, `ExtractJson`). A JSON value is found in prose or in a fenced block in every
   spelling RFC 8259 allows.
6. **Text and cost** (`Wrap`, `WrapLaws`, `WrapWords`, `Ledger`). Wrapping keeps the text and its words, fits the width
   and uses the fewest lines; the cost table by role adds up to the totals.

`Basics`, `GoStrings` and `StringOrder` hold what the others share. Strings are sequences of characters; the
source's byte-wise scans look only for ASCII characters, so both readings agree.

## Where the code and its documentation differ

The model follows the code.

- Section 5.1 of `specs/007-version-scoped-rules/design-lld.md` has two cases, a known version and an unknown one. A
  version string that is given but cannot be read counts as known and makes every range apply, so the first variant
  of a repeated id is taken: `UnreadableVersionTakesFirst`.
- A pack without ranges is not always returned unchanged (NFR-004, same document): a playbook without a concluding
  step is dropped. `UnscopedPackUnchanged` gives the exact condition, `UnscopedPackCanLoseAPlaybook` such a pack.
- `internal/orchestrator/blackboard.go:51-56` calls the round cap a backstop. It can also cut off a critic that
  assesses hypotheses a few at a time: `CapCanCutTheCritic`. `CapCutsExactly` says for which replies it makes a
  difference, and it never cuts off the report: `CleanRunsReport`.
- `internal/envadapter/kube/exec.go:139` takes every error that is an `io.EOF` for a clean close. A stream that ends
  behind a frame's header or extended length, with payload still due, ends in one as well, wrapped as MAS-4213; so
  does one that ends between the fragments of a message. The output then lacks what was cut off and no error is
  reported: `CutFrameIsNoError`, `UnfinishedEnds`; `NilErrorIsComplete` gives the exact condition.
- `internal/store/fs.go:68` takes an id for free whenever it cannot look at its file, also when the file is there.
  If the write then succeeds, the stored run is replaced: `BlindCreateReplaces`.
- Two variants of which one has a blank range are refused with MAS-5001, not with the overlap error MAS-5016.
- The overlap test forgets `!=`: `HolesAreNotSeen`. Between satisfiable ranges that makes a difference exactly
  when all they share is one excluded version (`OverlapIsExact`); a pack is then refused that could be accepted.
- With `Truncated`, an empty frame that comes after the budget is used up also counts: `OutputIsSplit` says exactly when.
- A run of 9999 steps can be finished but not failed in the object store: `FailNeedsAKey`. Failing a run that it has
  no record of is refused there, but leaves the note that was to tell of the failure: `UnknownRunIsRefused`.

## Model

| member | source | states |
|---|---|---|
| `Versions.OrderMeaning` | `internal/knowledge/pack.go:372-389` | The sign of a comparison is what zero-padded vectors mean: negative exactly when one is smaller at the first place where they differ, zero exactly when they agree everywhere |
| `Versions.OrderFlips` | `internal/knowledge/pack.go:372-389` | Swapping the arguments flips the sign, for vectors of any lengths |
| `Versions.OrderChains` | `internal/knowledge/pack.go:372-389` | The order is transitive, and a chain is an equality only if both links are: with OrderFlips, a total preorder |
| `Versions.Dense` | `internal/knowledge/pack.go:372-389` | Strictly between any two versions that differ lies another one |
| `Versions.NoExtremes` | `internal/knowledge/pack.go:372-389` | Every version has a greater and a smaller one |
| `Versions.CompareVersions` | `internal/knowledge/pack.go:372-389` | The padding loop computes the order that OrderMeaning explains |
| `Versions.ParseVersion` | `internal/knowledge/pack.go:351-370` | Trims, drops a leading `v` and everything from `-` or `+` on, splits at dots and fails unless every component is a 64-bit integer |
| `Versions.PrintedParses` | `internal/knowledge/pack.go:351-370` | Round trip: every vector of 64-bit integers is read back from its printed form |
| `RangeMeaning.SpelledVersion` | `internal/knowledge/pack.go:351-370` | Every usual spelling is read as the numbers in it: dotted decimals, with or without a `v`, a suffix from `-` or `+` on, and white space around them |
| `VersionRanges.ParseVersionRange` | `internal/knowledge/pack.go:322-349` | One check for each blank-separated constraint, two-character operators before one-character ones; one unreadable constraint fails the whole |
| `VersionRanges.Applies` | `internal/knowledge/pack.go:394-424` | True for a version nobody can read, otherwise exactly when every check holds under the order |
| `VersionRanges.PointRange` | `internal/knowledge/pack.go:322-349` | For every version there is a written constraint `==v` and `!=v` that parses to exactly that point or hole |
| `RangeMeaning.ConstraintMeaning` | `internal/knowledge/pack.go:322-424` | For each of the seven operators and none, every spelling of a version v after it and every readable version w: the constraint applies to w exactly when w stands in that relation to v, in terms of what zero-padded vectors mean |
| `RangeMeaning.ConstraintsCombine` | `internal/knowledge/pack.go:322-424` | Two constraints side by side parse exactly when both do, and then apply exactly where both do |
| `Overlap.Interval.RaiseLo` | `internal/knowledge/overlap.go:55-63` | The lower end afterwards admits exactly the versions both the old end and the new bound admit (through RaisedLoContains) |
| `Overlap.Interval.LowerHi` | `internal/knowledge/overlap.go:65-73` | The upper end afterwards admits exactly the versions both the old end and the new bound admit (through LoweredHiContains) |
| `Overlap.RaisedLoContains` | `internal/knowledge/overlap.go:55-63` | Raising the lower end intersects with the half-line above the bound, open or closed |
| `Overlap.LoweredHiContains` | `internal/knowledge/overlap.go:65-73` | Lowering the upper end intersects with the half-line below the bound, open or closed |
| `Overlap.ToInterval` | `internal/knowledge/overlap.go:25-53` | The loop over the checks builds the interval of the constraint; an unreadable one leaves no bounds |
| `Overlap.ReducedContains` | `internal/knowledge/overlap.go:25-53` | Every version that satisfies the checks lies in the interval, and conversely if no check is `!=` |
| `Overlap.SatisfiesMeaning` | `internal/knowledge/overlap.go:25-53` | To satisfy the checks is exactly to lie in the interval and on none of the versions that `!=` excludes |
| `Overlap.RoomBetween` | `internal/knowledge/overlap.go:42-50` | Between any two versions that differ lies one that is on none of finitely many holes |
| `Overlap.SatisfiableMeaning` | `internal/knowledge/overlap.go:25-53` | A constraint is satisfiable if and only if the ends of its interval fit and it is not a single excluded version |
| `Overlap.Separated` | `internal/knowledge/overlap.go:88-99` | The answer on two interval objects is the separation that SeparatedDisjoint justifies |
| `Overlap.SeparatedDisjoint` | `internal/knowledge/overlap.go:88-99` | Separated intervals have no version in common |
| `Overlap.RangesOverlap` | `internal/knowledge/overlap.go:75-86` | The answer on two written ranges is the one OverlapIsExact characterises |
| `Overlap.DisjointNeverBothApply` | `internal/knowledge/overlap.go:75-99` | Soundness: two ranges called disjoint never both apply to a version that can be parsed |
| `Overlap.OverlapIsExact` | `internal/knowledge/overlap.go:75-99` | For any two constraints: some version string satisfies both if and only if each is satisfiable, the test calls them overlapping, and what they share is not just one version that a `!=` of one of them excludes |
| `Overlap.HolesAreNotSeen` | `internal/knowledge/overlap.go:42-50` | The exception occurs at every version v: `==v` and `!=v` are each satisfiable, never both apply, and are called overlapping |
| `Expr.Identifiers` | `internal/core/expr.go:22-69` | The index loop with its inner skip over literals reports what the character-by-character reading reports |
| `Expr.SkipLiteral` | `internal/core/expr.go:22-48` | The inner loop stops where the literal closes or the text ends, in the state the reading is in there |
| `Expr.LiteralsAreSkipped` | `internal/core/expr.go:22-69` | Text inside a literal, of all three quote kinds and with escapes in two of them, is never a name: the names of pre + literal + post are those of pre followed by those of post |
| `Expr.PartsAreReadApart` | `internal/core/expr.go:22-69` | An operator, a bracket or white space separates: an expression reads what its two sides read |
| `Expr.NamesAreIdentifiers` | `internal/core/expr.go:22-69` | Every reported name is shaped like an identifier |
| `Expr.SelectorReadsItsHead` | `internal/core/expr.go:49-64` | A dotted path of any length reports its first name and none of its fields |
| `Expr.FieldAfterBracketIsReported` | `internal/core/expr.go:49-64` | The exception: after a closing bracket the field name is reported, for all names |
| `Packs.VariantsOkSnoc` | `internal/knowledge/pack.go:484-498` | Checking a new range against the ones its own id has so far decides whether all declarations still clash nowhere pairwise |
| `Packs.ConflictWith` | `internal/knowledge/pack.go:484-498` | Finds the first earlier range that clashes and its code, or that there is none |
| `Packs.IdTracker.Add` | `internal/knowledge/pack.go:484-498` | Accepts exactly when all declarations together are still free of clashes; records the range then, and changes nothing otherwise |
| `Packs.PiecesRender` | `internal/knowledge/pack.go:717-732` | Cutting a text at its signal references and writing the pieces out again gives the text |
| `References.PiecesAround` | `internal/knowledge/pack.go:717-732` | A reference is found wherever it stands, and the text on both sides is cut as if it stood alone |
| `References.RefsInMeaning` | `internal/knowledge/pack.go:717-732` | The references of a text are exactly the ids, non-empty and of the allowed characters, that stand in it in the written form |
| `References.ReferenceIsReplaced` | `internal/knowledge/pack.go:736-760` | A reference gives way to the expression of the first signal of its id, and both sides are expanded on their own |
| `References.PlainTextStays` | `internal/knowledge/pack.go:736-760` | A text without references is left as it is |
| `References.SelectorIsReplaced` | `internal/knowledge/pack.go:736-760` | Wherever the placeholder for the selector stands, the selector is put, and both sides are treated alike |
| `References.ExpansionMeaning` | `internal/knowledge/pack.go:736-760` | Expansion fails, with MAS-5012, if and only if some argument refers to a signal that is not there |
| `Packs.ExpandSignals` | `internal/knowledge/pack.go:736-760` | Replaces every reference by its signal's expression in every string argument and fails with MAS-5012 exactly when some reference names no signal |
| `Validate.Declare` | `internal/knowledge/pack.go:463-498` | Fails exactly when the id is missing, the range does not parse, or an earlier declaration of the id clashes |
| `Validate.ValidateSignals` | `internal/knowledge/pack.go:525-543` | No error exactly when every signal is well formed and ids repeat only as variants |
| `Validate.ValidatePatterns` | `internal/knowledge/pack.go:545-569` | No error exactly when every log pattern is well formed, compiles, and ids repeat only as variants |
| `Validate.ValidateModes` | `internal/knowledge/pack.go:571-601` | No error exactly when every failure mode and all its advice are well formed and ids repeat only as variants |
| `Validate.ValidateStep` | `internal/knowledge/pack.go:622-683` | No error exactly when the step has an id, a readable range, one kind, resolvable references and branches that report or pass |
| `Validate.ValidateSteps` | `internal/knowledge/pack.go:621-683` | No error exactly when every step of a playbook is well formed and step ids repeat only as variants |
| `Validate.ValidatePlaybooks` | `internal/knowledge/pack.go:603-684` | No error exactly when every playbook and all its steps are admitted |
| `Validate.ValidateInspect` | `internal/knowledge/pack.go:686-704` | No error exactly when every inspection command is well formed and ids repeat only as variants |
| `Validate.ValidatePack` | `internal/knowledge/pack.go:502-706` | No error if and only if the pack is admissible: the loops, trackers and early returns together decide the predicate the other results start from |
| `AdmittedRuns.AdmittedRulesAreWhole` | `internal/knowledge/pack.go:525-704` | Every rule of an admissible pack has an id, something to run or to match, and texts in both languages; every pattern compiles |
| `AdmittedRuns.AdmittedStepsAct` | `internal/knowledge/pack.go:603-684` | Every step of an admissible pack does exactly one of the three things, a collect with a tool and a slot, a conclusion of a mode the pack has |
| `AdmittedRuns.SampleIsAdmissible` | `internal/knowledge/pack.go:502-706` | The check is not so strict that nothing passes: a pack with rules of every kind does |
| `Resolve.CountIds` | `internal/knowledge/resolve.go:93-97` | The counts say how often each id is declared |
| `Resolve.ChooseRules` | `internal/knowledge/resolve.go:99-135` | The loop over the declarations keeps, skips and reports what the specification says, in order |
| `Resolve.ResolveRules` | `internal/knowledge/resolve.go:89-152` | Rules kept, declarations skipped and gaps for repeated ids, with the placed map and both passes accounted for |
| `Resolve.ResolveSteps` | `internal/knowledge/resolve.go:162-195` | Both passes: steps lost with what they name, then steps that read a slot of a lost collect |
| `Resolve.DropReaders` | `internal/knowledge/resolve.go:186-194` | The second pass |
| `Resolve.ResolvePlaybooks` | `internal/knowledge/resolve.go:50-62` | Trims every playbook and reports the ones left without a conclusion |
| `Resolve.ResolvePack` | `internal/knowledge/resolve.go:26-80` | The projected pack and its gaps: rules of five kinds, then steps and playbooks that lost what they depend on, then the aggregate |
| `Resolution.ChosenNarrows` | `internal/knowledge/resolve.go:89-152` | Resolution never adds or reorders a rule |
| `Resolution.ChosenMembers` | `internal/knowledge/resolve.go:89-152` | A rule is in the result exactly when its declaration is kept |
| `Resolution.ResolvedRulesSettled` | `internal/knowledge/resolve.go:89-152` | Surviving ids are distinct and every survivor applies to the version |
| `Resolution.KeptIdMeaning` | `internal/knowledge/resolve.go:89-152` | An id survives exactly when one of its declarations applies and, if there are several, a version is given |
| `Resolution.RulesAccounted` | `internal/knowledge/resolve.go:89-152` | An id is named as skipped or missing if and only if it was declared and is gone |
| `StepResolution.StepStays` | `internal/knowledge/resolve.go:162-218` | A step stays exactly when what it names is there and it reads no slot a lost collect binds |
| `StepResolution.StepsNarrow` | `internal/knowledge/resolve.go:162-195` | Steps are only left out |
| `StepResolution.StepsConserved` | `internal/knowledge/resolve.go:162-195` | Kept steps and steps listed as dropped together are all steps, with multiplicity |
| `StepResolution.StepsResolveOnce` | `internal/knowledge/resolve.go:162-195` | Trimming trimmed steps again drops nothing |
| `StepResolution.ReadSlotsKeepTheirCollects` | `internal/knowledge/resolve.go:182-218` | If a remaining step reads a slot, every collect that bound the slot remains |
| `PackResolution.ResolveIsIdempotent` | `internal/knowledge/resolve.go:26-195` | Resolving a resolved pack for the same version string, known, blank or unreadable, gives the same pack and no gap |
| `PackResolution.ResolvedIsClosed` | `internal/knowledge/resolve.go:26-243` | In a resolved pack every signal reference and every concluded failure mode resolves and every playbook concludes |
| `PackResolution.NoReadIsLeftUnbound` | `internal/knowledge/resolve.go:162-218` | In a resolved admissible pack no surviving step reads a slot that has lost a collect |
| `PackResolution.EveryRuleApplies` | `internal/knowledge/resolve.go:89-152` | For every pack and version string: every signal, pattern, mode and inspection of the projection applies to the version, and no id names two of a kind |
| `PackResolution.EveryPlaybookApplies` | `internal/knowledge/resolve.go:26-80` | The same of playbooks |
| `PackResolution.EveryStepApplies` | `internal/knowledge/resolve.go:167-177` | For every pack and version string: every step of every playbook of the projection applies to the version |
| `PackResolution.MissingSteps` | `internal/knowledge/resolve.go:165-199` | A step is missing from the projection if and only if its range does not apply, it names a signal or a mode the projection lacks, or it reads a slot that such a collect was to bind |
| `PackResolution.LostReadersLackACollect` | `internal/knowledge/resolve.go:165-199` | In an admissible pack: or it reads a slot of a collect that is missing |
| `PackResolution.PlaybookMembers` | `internal/knowledge/resolve.go:50-62` | A playbook of the result is one of the pack with its steps trimmed, and exactly those that can still conclude are there |
| `PackAccount.EveryLossIsReported` | `internal/knowledge/resolve.go:26-151` | For all five kinds of rule: the gaps name an id if and only if the pack declared it and the resolved pack no longer has it |
| `PackAccount.EveryStepIsReported` | `internal/knowledge/resolve.go:50-75` | Every dropped step of a playbook that passed version filtering is named with its playbook in the aggregate |
| `PackAdmission.AtMostOneVariantApplies` | `internal/knowledge/pack.go:484-498` | Accepted at load: for any version that parses, at most one declaration of an id applies |
| `PackAdmission.ClashMeaning` | `internal/knowledge/pack.go:484-498` | A declaration is refused for the first earlier one it cannot stand beside: MAS-5001 if one of the two has no range, MAS-5016 if both have and they overlap |
| `PackAdmission.ResolvingIsFiltering` | `internal/knowledge/resolve.go:89-152` | So on an accepted pack resolution is the plain filter by version, whatever the order of declarations |
| `PackAdmission.UnreadableVersionTakesFirst` | `internal/knowledge/resolve.go:101-135` | For a version string that is given but unreadable the first declaration of each id is kept and no other |
| `PackAdmission.ResolvedStaysAdmissible` | `internal/knowledge/resolve.go:26-80` | Resolution takes admissible packs to admissible packs |
| `PackAdmission.ResolvedStepsDiffer` | `internal/knowledge/resolve.go:165-199` | For an admissible pack and a readable version no step id occurs twice in a playbook of the projection |
| `PackAdmission.UnscopedPackUnchanged` | `internal/knowledge/resolve.go:26-80` | An admissible pack without version ranges comes back unchanged and without gaps if and only if every playbook has a concluding step |
| `PackAdmission.UnscopedPackCanLoseAPlaybook` | `internal/knowledge/resolve.go:26-80` | The other case occurs: an admissible pack without version ranges, and for every version its one playbook is dropped with a gap |
| `Engine.Execution.RunCollect` | `internal/rules/engine.go:111-139` | The new state after a collect: slot, environment, evidence or gap, in each of its branches |
| `Engine.Execution.RunEvaluate` | `internal/rules/engine.go:141-208` | The new state and control after an evaluate: missing slots, evaluation errors, empty metrics and both verdicts |
| `Engine.Execution.RunConclude` | `internal/rules/engine.go:210-234` | The new state and control after a conclude: finding, unknown failure mode |
| `Engine.Run` | `internal/rules/engine.go:59-109` | The loop over the steps with its step budget leaves the state the step functions chain to |
| `PlaybookRuns.ClosedRunsClean` | `internal/rules/engine.go:111-234` | On a closed playbook no run yields MAS-5012 or MAS-5014 |
| `PlaybookRuns.ResolvedRunsClean` | `internal/rules/engine.go:59-234` | End to end: a playbook of a resolved pack, for every pack and version string, never yields MAS-5012 or MAS-5014 at run time |
| `PlaybookRuns.RunReaches` | `internal/rules/engine.go:59-109` | Every run ends in the state after some prefix of its steps, or in that state marked as cut off at the budget |
| `PlaybookRuns.EnvIsCollected` | `internal/rules/engine.go:111-139` | Before each step a slot is in the environment if and only if an earlier collect of the run bound it |
| `PlaybookRuns.EveryReportWasMeasured` | `internal/rules/engine.go:141-208` | Every finding and every passed check comes from a step with a verdict, all of whose slots earlier collects of the run had bound; a false verdict never rests on an empty metric |
| `PlaybookOutput.SlotHoldsTheLatest` | `internal/rules/engine.go:111-139` | A slot holds what the latest collect that bound it got from its tool |
| `PlaybookOutput.StepGives` | `internal/rules/engine.go:111-234` | What each step adds to findings, passes, gaps and conclusions, and whether it stops or fails the run, said of what was bound before it and what the expression language answers |
| `PlaybookOutput.WholeRunMeans` | `internal/rules/engine.go:59-234` | The whole meaning of a run: the steps up to the first that stops or fails it, the step budget or the last, and a report of exactly what they give, in order |
| `PlaybookOutput.RunConcludes` | `internal/rules/engine.go:210-234` | A mode is among the conclusions if and only if some step that was taken concludes it, unconditionally or because its condition holds with every slot bound, and the pack has it |
| `AdmittedRuns.AdmittedRunsAreSober` | `internal/rules/engine.go:59-234` | End to end: a run on the projection of an admissible pack reports only graded findings with a statement and a confidence between 0 and 1, passes only checks that say so in both languages, and concludes only modes explained in both |
| `StoreKeys.ValueOrderIsStringOrder` | `internal/store/object.go:72-74` | For digit strings of one length, string order is number order |
| `StoreKeys.StepKeysIncrease` | `internal/store/object.go:72-74` | Zero-padded step keys sort as the steps do, up to 9999 |
| `StoreKeys.FiveDigitsSortWrong` | `internal/store/object.go:72-74` | The bound is exact: the key of number 10000 sorts before that of a number up to 9999 if and only if that number is above 1000 |
| `StoreKeys.RunPrefixesDiffer` | `internal/store/object.go:61-70` | Objects of one run are never under the step prefix of another, for ids without a slash |
| `StoreKeys.KeyLayout` | `internal/store/object.go:61-74` | Where records and steps lie under the store's prefix |
| `StoreKeys.SlashedIdIntrudes` | `internal/store/object.go:61-70` | The record of one run lies under the step prefix of another if and only if its id continues the other's with a `/steps` element; no id of one path element does |
| `StringOrder.IncreasingIsUnique` | `internal/store/object.go:194` | A set of keys has one increasing enumeration |
| `StringOrder.SortStringsSorts` | `internal/store/object.go:194` | Sorting distinct listed keys yields that enumeration, whatever order the pages came in |
| `Stores.FormatInt` | `internal/store/fs.go:222-232` | The digit loop writes the decimal numeral |
| `Stores.Memory.Create` | `internal/store/store.go:40-50` | New state and error: a repeated id is MAS-6002 and changes nothing |
| `Stores.Memory.Append` | `internal/store/store.go:53-65` | Adds the step at the end, named by its position if it has no name; MAS-6001 for an unknown run |
| `Stores.Memory.Finish` | `internal/store/store.go:68-80` | Report, usage, status and time, nothing else |
| `Stores.Memory.Fail` | `internal/store/store.go:83-97` | Status and time, and one note at the end, named by its position |
| `Stores.Memory.Get` | `internal/store/store.go:100-110` | The record, or MAS-6001 |
| `Stores.Object.Create` | `internal/store/object.go:77-83` | Writes the record object and nothing else |
| `Stores.Object.Append` | `internal/store/object.go:87-105` | Takes the next number of the run in this process, refuses the 10000th, writes one new step object |
| `Stores.Object.ListSteps` | `internal/store/object.go:178-193` | Follows page tokens to the end: the keys under the prefix, each once |
| `Stores.Object.ReadSteps` | `internal/store/object.go:177-209` | The decoded step objects in key order, or MAS-6013 |
| `Stores.Object.Get` | `internal/store/object.go:153-174` | The record, with the step objects instead of its own steps while it runs or when there are more of them |
| `Stores.Object.Finish` | `internal/store/object.go:108-122` | Writes the finished record with the steps read back |
| `Stores.Object.Fail` | `internal/store/object.go:125-144` | Appends a note and then writes the failed record |
| `StoreAgreement.GetAgrees` | `internal/store/object.go:153-209` | From related states both stores read the same record |
| `StoreAgreement.OperationAgrees` | `internal/store/object.go:77-174` | Every allowed operation gives the same reply in both stores, keeps them related and writes no step key twice |
| `StoreAgreement.HistoriesAgree` | `internal/store/object.go:77-209` | The same over every allowed history of any interleaving of runs |
| `StoreAgreement.FreshStoresAgree` | `internal/store/object.go:77-209` | From empty stores: same replies throughout, no step key ever written twice |
| `StoreAgreement.FailNeedsAKey` | `internal/store/object.go:125-144` | A run of 9999 steps can no longer be failed in the object store, exactly then and unlike in memory |
| `RunStories.FinishedRunReads` | `internal/store/store.go:40-125` | A run that is created, gets its steps and is finished reads as just that: its steps in order, each unnamed one by its number, and what it was finished with |
| `RunStories.FailedRunReads` | `internal/store/store.go:40-125` | A run that fails keeps its steps and tells of the failure, with its code and message, in a last one |
| `RunStories.UnnamedStepsDiffer` | `internal/store/store.go:40-125` | No two steps of a run that came without an id get the same |
| `RunStories.RunsAreListed` | `internal/store/store.go:40-125` | Over every history the list of runs names each run once, in the order of creation |
| `RunStories.UnknownRunIsRefused` | `internal/store/object.go:125-144` | The object store refuses a run it has no record of with MAS-6011, but failing one leaves the note behind |
| `RunStories.BrokenStepIsRefused` | `internal/store/object.go:125-144` | A step object that cannot be decoded makes a running run unreadable, with MAS-6013 |
| `FileStore.Files.WriteRecord` | `internal/store/fs.go:188-211` | Temporary file, then rename; a write that fails leaves nothing or a temporary file behind, a failed rename nothing, and no failure touches the run's file |
| `FileStore.Files.Load` | `internal/store/fs.go:159-184` | The decoded record; MAS-6001 for an ill-formed or unknown id, MAS-6004 for a file that cannot be read, MAS-6003 for a content that does not decode |
| `FileStore.Files.Create` | `internal/store/fs.go:61-72` | Refuses ill-formed ids and those whose file it sees, otherwise one write |
| `FileStore.Files.Append` | `internal/store/fs.go:75-87` | Load, one more step, one write |
| `FileStore.Files.Finish` | `internal/store/fs.go:90-102` | Load, completed record, one write |
| `FileStore.Files.Fail` | `internal/store/fs.go:105-119` | Load, failed record with its note, one write |
| `FileStore.TempIsNoPath` | `internal/store/fs.go:188-211` | No temporary file is ever taken for a run |
| `FileStore.IdsStayInside` | `internal/store/fs.go:30-58` | An id that is accepted names a file in the directory, and no hidden one |
| `FileStore.MintedIdsAreValid` | `internal/store/fs.go:30-58` | Every id of the form the service mints is accepted |
| `FileStore.InvalidIdIsRefused` | `internal/store/fs.go:61-184` | An id that is not accepted is refused with MAS-6001 before the disk is touched |
| `FileStore.CorruptIsRefused` | `internal/store/fs.go:159-184` | A run whose file does not decode is refused with MAS-6003 and not written over |
| `FileStore.FileOperationAgrees` | `internal/store/fs.go:61-127` | For valid ids an operation that meets no failure replies and acts as in memory; one whose reading or writing fails says so and has not happened, except a create that could not look, which has |
| `FileStore.BlindCreateReplaces` | `internal/store/fs.go:68-71` | A create of an id that is taken succeeds if and only if the look at its file failed, and then the stored run is replaced by the new one |
| `FileStore.CrashIsAllOrNothing` | `internal/store/fs.go:188-211` | A crash between any two disk actions, however the file is written piece by piece, leaves exactly the state before or exactly the state after the operation |
| `FileStore.FilesAgree` | `internal/store/fs.go:61-127` | Over every history with any failures and crashes in between, the file store replies as an in-memory store that has seen the operations which took effect, or tells of the failure |
| `FileStore.FreshFilesAgree` | `internal/store/fs.go:61-127` | The same from an empty directory and an empty store |
| `Notes.SortIsByRank` | `internal/agent/state.go:316-332` | The sort lists the notes rank by rank, each rank in its original order, unlisted notes last |
| `Notes.SortPermutes` | `internal/agent/state.go:316-332` | The sort is a permutation |
| `Notes.ArrivalOrderIsLost` | `internal/agent/state.go:316-332` | Whatever was noted before: notes of different ranks give the same list in whatever order they arrive |
| `Notes.RankIsUnambiguous` | `internal/agent/state.go:318-325` | With mutually exclusive prefixes the map walk finds one rank, whatever its order |
| `Notes.NoteOrderIsExclusive` | `internal/orchestrator/supervisor.go:99-117` | The prefixes every caller supplies are mutually exclusive |
| `Notes.FindingsRank` | `internal/orchestrator/supervisor.go:99-117` | A note of a domain ranks by that domain |
| `Notes.NotesAreTitled` | `internal/agent/roles.go:50-75` | The note of each domain begins with its name |
| `Workspace.FindDigest` | `internal/agent/state.go:150-154` | Whether the digest is known already |
| `Workspace.State.AddEvidence` | `internal/agent/state.go:144-156` | Unnamed evidence and repeated digests are ignored, everything else is added at the end |
| `Workspace.State.AddNote` | `internal/agent/state.go:304-311` | Blank notes are ignored |
| `Workspace.State.ResolveRefs` | `internal/agent/state.go:218-239` | Keeps the references that name something known, and says whether all others were blank |
| `Workspace.State.AddHypothesis` | `internal/agent/state.go:189-214` | One more hypothesis under its own id or the next number, with its own status or proposed, and only known references; a MAS-2010 gap exactly when some were unknown |
| `Workspace.State.UpdateHypothesis` | `internal/agent/state.go:267-286` | Changes the first hypothesis with the id and no other, ignores a confidence outside 0 to 1; found exactly when there is one |
| `Workspace.State.AddRecommendation` | `internal/agent/state.go:289-294` | One more recommendation, advisory whatever it was marked as |
| `Workspace.State.SortNotes` | `internal/agent/state.go:316-332` | The notes become the stable sort of themselves |
| `Workspace.State.PlannerStep` | `internal/agent/roles.go:19-34` | Evidence and gaps of its loop and one plan note, nothing else |
| `Workspace.State.InvestigatorStep` | `internal/agent/roles.go:50-75` | With tools: evidence and gaps of its loop and one note of its domain; without: one gap; nothing else |
| `Workspace.State.CorrelatorStep` | `internal/agent/roles.go:102-130` | Evidence and gaps of its loop and numbered, proposed hypotheses of clamped confidence; a reply that does not decode adds a MAS-2004 gap instead |
| `Workspace.State.CriticStep` | `internal/agent/roles.go:148-183` | Evidence and gaps of its loop and changed hypotheses; a reply that does not decode adds a MAS-2004 gap instead; nothing at all without hypotheses |
| `Workspace.State.ReporterStep` | `internal/agent/roles.go:202-237` | Evidence and gaps of its loop, a summary that is not blank and advisory recommendations; a reply that does not decode adds a MAS-2004 gap and its text becomes the summary |
| `BoardMeaning.EvidenceMeaning` | `internal/agent/state.go:144-156` | Collected evidence: what was there stays, only named evidence is added, no digest twice, and all that is named is there or has its digest there |
| `BoardMeaning.ProposedOne` | `internal/agent/state.go:189-242` | A proposal becomes a numbered hypothesis with its words, a confidence in range and exactly those of its citations that name something the run has; MAS-2010 exactly when one names nothing |
| `BoardMeaning.ProposalsMeaning` | `internal/agent/roles.go:102-130` | Every proposal that says something becomes a hypothesis, numbered in order, and nothing else does |
| `BoardMeaning.AdviceMeaning` | `internal/agent/roles.go:202-237` | Every piece of advice that says something becomes a recommendation, in order, advisory, with the risk its word names and low otherwise |
| `BoardMeaning.NotesMeaning` | `internal/agent/roles.go:19-75` | What planner and investigators leave: their loop's evidence and gaps, and a note unless their text is blank |
| `BoardMeaning.CorrelatorMeaning` | `internal/agent/roles.go:102-130` | What the correlator leaves, with a reply that decodes and with one that does not |
| `BoardMeaning.CriticMeaning` | `internal/agent/roles.go:148-183` | What the critic leaves besides assessments, and that it does nothing without hypotheses |
| `BoardMeaning.ReporterMeaning` | `internal/agent/roles.go:202-237` | What the reporter leaves: summary, advice, gaps; a reply that does not decode leaves its text as summary |
| `Blackboard.Observe` | `internal/orchestrator/blackboard.go:183-207` | What a round is judged by, counted from the state |
| `Blackboard.CountAssessed` | `internal/orchestrator/blackboard.go:183-207` | The hypotheses that are no longer proposed |
| `Blackboard.CountPending` | `internal/orchestrator/blackboard.go:183-207` | The active domains not investigated yet |
| `Blackboard.Loop.Investigate` | `internal/orchestrator/blackboard.go:99-111` | Runs each active domain once in the whole run, then sorts the notes |
| `Blackboard.Loop.Round` | `internal/orchestrator/blackboard.go:142-153` | Every contributor is judged by what was seen when the round began, and the eligible ones run in order |
| `Blackboard.Run` | `internal/orchestrator/blackboard.go:81-179` | The loop with its three ways to stop leaves the state, the rounds and the record of who ran that the specification gives |
| `BlackboardRuns.ChangingRoundsDescend` | `internal/orchestrator/blackboard.go:88-218` | If only investigators gather evidence, every round that counts as a change lowers the lexicographic measure of pending domains, uncorrelated evidence, unassessed hypotheses and missing summary; WithoutCap, the loop without its cap, terminates by that measure |
| `BlackboardRuns.CapOnlyShortens` | `internal/orchestrator/blackboard.go:56` | From any state: the capped run is the uncapped one when that ends in time, and otherwise runs all the rounds allowed |
| `BlackboardRuns.CleanRunsReport` | `internal/orchestrator/blackboard.go:140-171` | From a clean start, a run that no budget cut and that ends with a hypothesis has run the reporter after a critic: the cap never cuts the report off |
| `BlackboardRuns.PhaseAdvances` | `internal/orchestrator/blackboard.go:140-171` | The invariant behind it: where a run stands when each round begins, and that after the report nothing but assessing and reporting is left |
| `Critique.StaysProposed` | `internal/agent/roles.go:148-183` | Among hypotheses with ids of their own, one stays proposed if and only if the critic's reply gives no verdict on its id |
| `Critique.AssessmentsMean` | `internal/agent/roles.go:148-183` | Where hypotheses have ids of their own each takes its status from the last assessment of its id that gives a verdict, trimmed and in lower case, its confidence from the last of its id, clamped, its rationale from the last that has one, and keeps the rest |
| `Critique.CriticFollows` | `internal/agent/roles.go:148-183` | The same of the critic's step |
| `RoundCap.CapCutsExactly` | `internal/orchestrator/blackboard.go:51-179` | From a clean start capped and uncapped runs differ if and only if none of the four rounds ends the loop and the last replies leave a hypothesis that the critic is shown without a verdict, or no summary |
| `RoundCap.CapIsABackstop` | `internal/orchestrator/blackboard.go:51-56` | So the cap changes nothing in a run whose critic gives a verdict on every proposed hypothesis it is shown and whose reporter always leaves a summary |
| `BlackboardRuns.DigestSeesNewEvidence` | `internal/agent/state.go:428-438` | New evidence always changes the digest that eligibility is judged by |
| `BlackboardRuns.RunsKeepCitations` | `internal/agent/state.go:189-242` | Over every run each hypothesis cites only findings and evidence the run has |
| `CapExample.CapCanCutTheCritic` | `internal/orchestrator/blackboard.go:51-56` | A run in which the cap stops a critic that is still eligible and the uncapped loop would go on, with no budget spent |
| `Investigators.WithinAlways` | `internal/agent/state.go:390-416` | The invariant of every interleaving: steps, tokens spent and on their way, calls made and admitted, investigators past the semaphore |
| `Investigators.BudgetsHold` | `internal/tool/tool.go:231-235` | For every schedule of investigators of which at most k can run at once, k the smaller of the limit and their number, and replies of at most C tokens: steps stay within MaxSteps, tokens within MaxTokens - 1 + kC, tool calls within MaxToolCalls - 1 + k |
| `Investigators.EverythingIsAccounted` | `internal/agent/loop.go:47-85` | At every point of every schedule: one model call for each step but those on their way, no evidence or gap lost, the first reason kept, and the run flagged as cut exactly when a MAS-3005 gap says so or an investigator is about to record one; once all are done, exactly when a gap says so |
| `Investigators.FlagComesFirst` | `internal/agent/loop.go:48-53` | In between the flag does come first: some schedule reaches a point where the run is flagged and no gap tells of it |
| `BudgetCuts.CutsAreJustified` | `internal/agent/loop.go:47-123` | Over every schedule: the run is flagged only for a budget that is spent, for the reason that is kept, and a call is refused for the budget only when that many have been made |
| `BudgetCuts.RepairsAreMalformedCalls` | `internal/agent/loop.go:95-123` | Over every schedule an investigator's repairs are its calls that were malformed or named no tool |
| `InvestigatorRuns.SchedulesEnd` | `internal/agent/loop.go:47-141` | Every schedule has at most 28 events for each investigator and four for each tool call asked for |
| `InvestigatorRuns.SomebodyCanGoOn` | `internal/orchestrator/supervisor.go:130-150` | Until all investigators are done one of them can take a step: the semaphore never blocks them all |
| `InvestigatorRuns.ScheduleDoesNotShow` | `internal/orchestrator/supervisor.go:119-157` | At any point of any schedule the sorted notes depend only on what each investigator ended with |
| `Overshoot.ToolBudgetIsOverrun` | `internal/tool/tool.go:231-235` | The bound on calls is exact: for every budget and every number of investigators some schedule makes MaxToolCalls - 1 + k calls |
| `Overshoot.TokenBudgetIsOverrun` | `internal/agent/state.go:390-416` | The bound on tokens is exact: for every budget, every length C of replies and every number of investigators some schedule spends MaxTokens - 1 + kC tokens |
| `ReasoningLoop.Session.ConsumeStep` | `internal/agent/state.go:390-416` | Grants a step only within all three budgets; a refusal flags the run and keeps the first reason |
| `ReasoningLoop.Session.AddUsage` | `internal/agent/state.go:356-360` | One call and its tokens more, nothing else |
| `ReasoningLoop.Session.Invoke` | `internal/tool/tool.go:204-235` | Unknown tools and a spent budget are refused without counting; every other attempt counts |
| `ReasoningLoop.Session.UseTools` | `internal/agent/loop.go:102-123` | The calls of one reply, in order, with repairs and usable results counted |
| `ReasoningLoop.Session.RunLoop` | `internal/agent/loop.go:37-141` | From any state the turn loop, with its six ways to stop, ends as an investigator stepped through alone ends |
| `ReasoningLoop.Session.InvestigatorStep` | `internal/agent/roles.go:50-75` | The same, and then at most one note |
| `ReasoningLoop.RunsAlone` | `internal/orchestrator/supervisor.go:140-149` | What the loop leaves is what a legal schedule leaves in which the others stand still |
| `WebSocket.NumberOfBigEndian` | `internal/envadapter/kube/wsconn.go:228-242` | A big-endian length is read back |
| `WebSocket.FrameIsRead` | `internal/envadapter/kube/wsconn.go:206-257` | Section 5.2 of RFC 6455: a frame up to the size limit, in any of the three length forms, is read back and no byte beyond it is taken |
| `WebSocket.FrameWasSent` | `internal/envadapter/kube/wsconn.go:206-257` | Conversely a frame is read only off bytes that encode it in one of those forms |
| `WebSocket.WrappedEndMeans` | `internal/envadapter/kube/wsconn.go:206-257` | The three ways a stream ends early: plain end of file up to one byte of a frame, an end of file under the code MAS-4213 exactly behind the header or behind the extended length with bytes still due, a failure otherwise |
| `WebSocket.TornAtTheEnd` | `internal/envadapter/kube/wsconn.go:206-257` | Of the frames that are cut off, exactly those cut behind their first byte, their header or their extended length are taken for the end of the stream |
| `WebSocket.ServerGetsIt` | `internal/envadapter/kube/wsconn.go:261-286` | Section 5.3 of RFC 6455: a server that unmasks what was written gets the opcode and the payload back, for every mask and up to 65535 bytes |
| `WebSocket.MaskingTwice` | `internal/envadapter/kube/wsconn.go:278-281` | Masking twice is no masking |
| `WebSocket.XorMeans` | `internal/envadapter/kube/wsconn.go:278-281` | Masking sets a bit exactly where the byte and its mask byte differ |
| `Messages.ApplyMask` | `internal/envadapter/kube/wsconn.go:278-281` | The loop over the buffer masks every byte with its own mask byte |
| `Messages.Conn.ReadFull` | `internal/envadapter/kube/wsconn.go:207-213` | All the bytes asked for; or none, the stream used up, and which of the two ends of file it was or that it broke |
| `Messages.Conn.ReadLength` | `internal/envadapter/kube/wsconn.go:228-242` | The announced length in its 7-, 16- or 64-bit form |
| `Messages.Conn.ReadFrame` | `internal/envadapter/kube/wsconn.go:206-257` | Frame or error and what is left of the stream, in every branch: early end with what errors.Is sees of it, reserved bits, mask bit, length form, size limit |
| `Messages.Conn.WriteFrame` | `internal/envadapter/kube/wsconn.go:261-286` | Writes one masked final frame, or refuses payloads over 65535 bytes and passes failures on without writing |
| `Messages.Conn.ReadMessage` | `internal/envadapter/kube/wsconn.go:161-202` | The loop returns the message or error, has written the pongs and stands at the byte that the reassembly rules give |
| `Messages.MessageArrives` | `internal/envadapter/kube/wsconn.go:161-202` | Section 5.4 of RFC 6455: however a message is split, with any pings and pongs in between, it is returned with its own opcode and whole payload, with one pong for each ping, same payload, in order |
| `Messages.MessageWasSent` | `internal/envadapter/kube/wsconn.go:161-202` | Conversely, whenever a message is returned, the bytes taken were such a stream and every ping in it was answered |
| `RemoteCommand.ExitCodeFrom` | `internal/envadapter/kube/exec.go:205-227` | Success is 0, the first exit-code cause decides, a failure without one is 1, anything unreadable is an error |
| `RemoteCommand.ExitMeaning` | `internal/envadapter/kube/exec.go:205-227` | Success is 0; otherwise the first exit-code cause decides, a code that is no number is an error, and without such a cause it is 1; so it is 0 exactly for success or a deciding cause that says 0 |
| `RemoteCommand.FoldingMeans` | `internal/envadapter/kube/exec.go:205-227` | Words are compared letter by letter in either case, the two characters that fold to ASCII letters included, and nothing else counts as equal |
| `RemoteCommand.ReadRemoteCommand` | `internal/envadapter/kube/exec.go:129-188` | The loop over a connection returns what demultiplexing its messages up to the first error gives |
| `RemoteCommand.OutputIsSplit` | `internal/envadapter/kube/exec.go:129-188` | On protocol messages up to what counts as the end: stdout and stderr are the two sides of the first MaxBytes bytes written; Truncated if and only if a byte was lost or a frame came when the budget was already used up |
| `RemoteCommand.NoErrorMeansAll` | `internal/envadapter/kube/exec.go:129-188` | No error if and only if every message was of the protocol, reading stopped at what errors.Is calls the end of the stream, and a status arrived |
| `RemoteCommand.ErrorMeaning` | `internal/envadapter/kube/exec.go:129-188` | Which error: MAS-4213 for a message that is not of the protocol and for a broken stream, MAS-4214 for an end without a status, none otherwise |
| `RemoteCommand.NilErrorIsComplete` | `internal/envadapter/kube/exec.go:138-141` | When no error is reported, everything the server began to send was read if and only if no message was under way and the stream did not end behind one byte, the header or the extended length of a frame |
| `RemoteCommand.CutFrameIsNoError` | `internal/envadapter/kube/exec.go:138-141` | The failing inputs: after any protocol messages with a status among them, a frame cut behind its header or extended length is dropped without an error |
| `RemoteCommand.UnfinishedEnds` | `internal/envadapter/kube/exec.go:138-141` | And a first fragment that is followed by nothing ends the reading as a close does |
| `RemoteCommand.WireToOutput` | `internal/envadapter/kube/exec.go:129-188` | From bytes to output: any fragmentation and any pings, any way the stream may end, and the split above |
| `ExtractJson.FindClose` | `internal/agent/loop.go:230-256` | The byte loop finds where the value that begins at the first bracket ends |
| `ExtractJson.ExtractJson` | `internal/agent/loop.go:221-257` | Fence first, then first bracket, then its close; nothing if there is none |
| `ExtractJson.QuotedIsNeutral` | `internal/agent/loop.go:236-255` | Whatever a JSON string holds, brackets, quotes and backslashes in every escaping included, the scanner comes out of it as it went in |
| `ExtractJson.ValueIsNeutral` | `internal/agent/loop.go:236-255` | Every JSON value inside the outer one leaves the count as it was, although only one kind of bracket is counted |
| `ExtractJson.ClosesAtItsEnd` | `internal/agent/loop.go:235-256` | The scan from a value's own bracket stops at its last character |
| `ExtractJson.ProseIsStripped` | `internal/agent/loop.go:221-257` | For every JSON array or object in any spelling RFC 8259 allows: without a fence and without an earlier bracket it is returned exactly |
| `ExtractJson.FencedBlockIsFound` | `internal/agent/loop.go:259-272` | As the body of the first fenced block it is returned exactly, whatever the prose holds |
| `ExtractJson.OpenBlockIsFound` | `internal/agent/loop.go:259-272` | The same when the closing fence is missing |
| `Wrap.Tokenize` | `internal/cli/commands.go:724-756` | The loop cuts the text into runs of narrow characters and single wide ones |
| `WrapLaws.TokensKeepText` | `internal/cli/commands.go:724-756` | Tokens are non-blank, as wide as shown, and together all of the text but its white space |
| `Wrap.WrapText` | `internal/cli/commands.go:681-713` | The loop writes the greedy layout of the tokens |
| `WrapLaws.WrapKeepsText` | `internal/cli/commands.go:681-713` | Wrapping changes white space and nothing else, for every text and width |
| `WrapWords.TokensWoven` | `internal/cli/commands.go:724-756` | A text is its tokens with white space between them, and a token is marked as spaced exactly where there was some |
| `WrapWords.WhiteSpaceStays` | `internal/cli/commands.go:681-756` | For every text, width and indent: before a token the wrapped text has a break and the indent if a line begins there, one blank if the text had white space there and the token is no closing punctuation, and nothing otherwise |
| `WrapWords.WordsStay` | `internal/cli/commands.go:681-756` | A text of narrow characters in which no token is closing punctuation has the same words after wrapping, in order, with any blank indent |
| `WrapLaws.LinesFit` | `internal/cli/commands.go:681-713` | For every text: a line overflows only by closing punctuation or by a single token |
| `WrapLaws.ShownLinesFit` | `internal/cli/commands.go:681-713` | Without closing punctuation every line of the written text takes at most the width in columns, its indent not counted, or is one token |
| `WrapLaws.FewestLines` | `internal/cli/commands.go:681-713` | And no layout of the same tokens in which lines fit has fewer lines |
| `Ledger.AddCost` | `internal/core/model.go:325-340` | The loop with its seen map, and the sort, compute the sum of two costs |
| `Ledger.PlusCommutes` | `internal/core/model.go:325-340` | Adding costs is commutative |
| `Ledger.PlusAssociates` | `internal/core/model.go:325-340` | Adding costs is associative |
| `Ledger.ZeroIsIdentity` | `internal/core/model.go:314-340` | A known zero is the identity for exactly the costs with sorted, distinct, named models that are unknown if any is listed |
| `Ledger.EmptyIsNoIdentity` | `internal/core/model.go:303-340` | The zero value is not: it makes every known cost unknown |
| `Ledger.Ledger.Record` | `internal/llm/llm.go:187-213` | The totals and the entry of one role move together by one exchange |
| `Ledger.Ledger.ByRole` | `internal/llm/llm.go:232-249` | A table in the promised order with exactly the entries of the map |
| `Ledger.EntriesAreSums` | `internal/llm/llm.go:187-213` | After any exchanges the totals are their sum and each entry is the sum of its own role's |
| `Ledger.EntriesTell` | `internal/llm/llm.go:187-213` | An entry also adds up its role's time, and names the provider and model its role called first |
| `Ledger.RolesOfLedger` | `internal/llm/llm.go:187-213` | The table has an entry for exactly the roles that made an exchange, and one for exchanges that name none |
| `Ledger.TableAddsUp` | `internal/llm/llm.go:187-249` | The rows of the table add up to the totals: calls, tokens and cost, unpriced models included |
| `Ledger.TableIsUnique` | `internal/llm/llm.go:232-249` | There is one such table, however the map is walked |
| `Ledger.RowsDescend` | `internal/llm/llm.go:232-249` | Down the table cost never rises, at equal cost calls never do, and at equal calls names ascend |

## Left out

Parameters of the model, because their inside is not visible or not the point:

- The expression language and regular expressions are functions of the environment or the text; a tool call, a
  model reply and a role's decoded answer are any value at all, chosen freely for every call.
- JSON encoding and the digest envelope are pairs of functions; `RoundTrips` and `ReadsBack` say that decoding
  inverts encoding. SHA-1, SHA-256 and request signing are not modelled.
- Clocks, random masks, failing reads and writes and severed connections are inputs; so are the pages an object server
  lists, in any size and order (`Faithful`).
- Numbers are mathematical: step and token counters do not wrap, money is exact. Floating-point sums are not
  associative, so the cost laws hold of the exact amounts.

What the model says less about than the code:

- Resolve.ResolvePack: the gaps are a multiset, because the source adds MAS-5017 gaps in map order; detail texts are not modelled, and the MAS-5019 list is a multiset of its entries.
- Validate.ValidatePack: says when there is an error and not which of several is reported, because branches are visited in map order; messages and paths are not modelled.
- Packs.ExpandSignals: arguments other than strings are passed through, and nested argument values are not modelled.
- Overlap.Separated: the interval objects are only read; sharing of one interval by two callers does not occur.
- Resolve.ResolveRules: the shallow copy of the pack, and with it sharing of slices between the pack and its projection, is not modelled.
- Engine.Execution.RunEvaluate: a finding's detail text and the ids of the evidence collected by then are not modelled.
- Stores.Memory.Append: records are values, so the caller's slice is never shared with the store's.
- StoreAgreement.FreshStoresAgree: an unknown run is an error in both stores, under each store's own code; appends before create or after the end, and a second create, differ by design and are not allowed histories; every put succeeds.
- FileStore.CrashIsAllOrNothing: the disk performs actions in the order they are issued; a disk that reorders them after a power loss is not modelled, and neither does the source wait for it.
- Blackboard.Run: no contributor fails, because no step of a role returns an error; log lines are not modelled.
- Workspace.State.RunLoop: stands for a whole reasoning loop by what it came to; ReasoningLoop has the loop turn by turn.
- Workspace.State.PlannerStep: the plan's text is one string; prompts are not modelled.
- Workspace.State.AddGap: a gap is its code; its intent, reason and texts are not modelled.
- ReasoningLoop.Session.RunLoop: the conversation that grows from turn to turn, which only a model reads, is not modelled.
- ReasoningLoop.Session.Invoke: mode, schema, plan, guard and timeout are one result, evidence or a code; they come after the count in the source too.
- Investigators.BudgetsHold: each hold of the mutex and each access to the atomic counter is one step; the reading of the reason between a refusal and its gap, which changes nothing, is not a step of its own.
- Messages.Conn.WriteFrame: a write that fails part of the way is a failure with nothing written.
- RemoteCommand.ExitCodeFrom: status texts are characters, and case folding is modelled as far as it can reach an ASCII letter.

Not modelled:

- Dialling, TLS, the handshake, HTTP clients and servers, providers, YAML loading, the web console, command-line commands
  other than the wrapper, logging, metrics, report rendering.
- Listing runs, whose order differs between the stores.
- The other topologies (single agent, plan and execute, debate): other arrangements of roles over the same state.
- The guard, the authoriser and the tenancy filters: table lookups.
- Search in source files.
- Which evidence id a tool result gets under concurrency: the counter follows completion order.
