# Horseness: verified models of the coordinator's rules

Horseness is an event-sourced coordinator: every decision about tasks, attempts, plans, workflows,
documents, quotas and grants is an event on a hash-chained stream, and state is what the events fold to.
This project models the parts of it that do almost no I/O and proves what they are meant to guarantee,
for all inputs and over whole runs.

The modules follow the components:

- **Task execution.** `Dependencies` (the cycle search and the closure search, as mutating classes),
  `Plans` (plan output, derived children and edges), `Attempts` (lifecycle, dispatch, resolution),
  `Execution` (the projection and one function per kind of event), `ExecutionReducer` (the reducer with the
  loops and searches of the source, proved equal to those functions), `ExecutionSafety` (the invariant),
  `ExecutionRuns`, `ExecutionInvariants`, `ExecutionPlans`, `ExecutionAdoptions`, `ExecutionReceipts` and
  `ExecutionLegacy` (theorems over every run), `ExecutionEffects` and `ExecutionLaws` (when each event is
  accepted, what it changes, how workflows stop), `PlanDerivation` (plan output and derived edges),
  `AttemptLaws` (dispatch, state by state), `ExecutionExamples` (concrete runs), `AttemptKeys`.
- **Deltas.** `Pointers` (JSON Pointers and scopes), `Delta` (edits of a JSON tree), `DeltaEngine`
  (`applyDelta`), `DeltaLaws` (acceptance, frame, order), `DeltaFailures` (rejections and conflicts),
  `DeltaScope` (what stays in scope), `DeltaUndo` (inverse deltas).
- **Canonical bytes.** `Canonical` (serialization, its reader, digests), `CanonicalText` (which text is
  written), `Numbers`, `Lexicographic`, `Text`, `Base32`, and `Policy` (UTF-8 order).
- **Chains and ledgers.** `Events` (sealed events, the hash chain), `ChainLaws` (what is found of a changed
  chain), `Ledger`, `LedgerLaws` (decisions), `WorkspaceLedger` and `WorkspaceHistory` (quotas, admissions,
  policy), `RunLedger` and `RunReplay` (the canonical document and the operational state of a run),
  `RunEffects` (when an event is taken), `RunHistory` (what a replay says of its events), `RunViews` (task
  states against lifecycles), `RunProposals` (final decisions).
- **Grants.** `Grants` (lineage, revocation, idempotent issuance), `GrantIssuance` (what an issuance leaves).
- **Delivery.** `Delivery` (processes that may crash between any two actions), `DeliverySubstitution` (what
  becomes of a substituted proposal), `DeliveryAnswers` (where the returned values come from) and
  `DeliveryRuntime` (one delivery as the adapter runs it).

Digests are symbolic: a digest is the value that was hashed together with its domain, so two digests are
equal exactly when the domains and the values are.  For canonical JSON that step is itself proved: a digest
is a SHA-256 symbol around the real message, and `Canonical.DomainDigestInjective` says when two messages
meet.  A thrown `DomainError` is a failure result that leaves the state unchanged.

Some stronger claims are false of the code.  Each is stated as the code has it, with a failing input and the
exact condition:

- Plan output is accepted exactly when it is well formed and the texts `source:key` of its edges are
  unambiguous; keys that contain a colon can collide, and then a plan without a cycle is refused
  (`Plans.AcceptedExactly`, `Plans.CollidingKeysRefused`).
- A recorded receipt ends its attempt exactly when the provider handle fits
  (`ExecutionReceipts.ReceiptEndsAttempt`).  When it does not, the attempt stays open for good and no attempt
  of the task is ever prepared again (`ExecutionReceipts.OpenForGood`); `ExecutionExamples.RunLeftOpen` is
  such a run.
- An accepted delta whose scope meets each array that gains or loses an element only at the path of the
  operation changes nothing outside the scope exactly when all those operations are at the end of their
  arrays (`DeltaScope.StaysInScopeAtTheEnd`, from `Delta.ArrayEditStaysAtTheEnd`);
  `DeltaScope.RemovalLeavesScope` is an accepted removal that moves an element outside its scope.
- A grant issuance whose clock cannot be read stores a state that cannot be read back, exactly when an
  operation was named (`Grants.IssueKeeps`, `Grants.UnreadableClockStored`).  Then every later call is refused
  and the store never changes again (`Grants.UnreadableRefuses`, `Grants.UnreadableIsLast`).
- The older event `TaskResolvedV1` sets a lifecycle without recording a resolution.  A task is resolved
  without a record exactly when that event named it at a time when it was known
  (`ExecutionLegacy.UnrecordedExactly`, `ExecutionExamples.ResolvedWithoutRecord`).
- The same event can name a task that does not exist.  The task states of a run are those of its resolved
  lifecycles exactly when every task that the event names has a resolved lifecycle
  (`RunViews.TaskStatesExactly`), and one such event keeps them so exactly when its task is known
  (`RunViews.LegacyAgreesWhenKnown`); `RunViews.ReplayHoldsMore` is a replay in which they differ.
- A delivery can finish although the authority answered its proposal with a different one: the phase is
  persisted first, and the process goes on exactly when the answer names the proposal of its decision
  (`DeliverySubstitution.ComparedAfterwards`).  A finished delivery made that comparison exactly when it is
  the one that asked (`DeliverySubstitution.FinishedDelivery`); `DeliverySubstitution.SubstitutedAndFinished`
  gives a run in which a substituted return is delivered.

## Model

| member | source | states |
|---|---|---|
| Dependencies.AssertAcyclic | packages/domain/src/tasks.ts:52-60 | on every input the search ends; it accepts exactly the well-formed acyclic graphs on distinct tasks and reports DEPENDENCY_CYCLE exactly when a well-formed graph has a cycle |
| Dependencies.CollectEdges | packages/domain/src/tasks.ts:53-56 | the first loop accepts exactly the well-formed edge lists and its adjacency lists are exactly the links |
| Dependencies.CycleSearch.Visit | packages/domain/src/tasks.ts:57-58 | one depth-first visit keeps a finish order in which every successor comes earlier, or has found a directed cycle |
| Dependencies.FinishOrderExcludesCycles | packages/domain/src/tasks.ts:57-59 | a graph with such a finish order has no directed cycle |
| Dependencies.DependencyClosure | packages/domain/src/execution.ts:186 | the recursive search returns exactly the least set that holds the target and is closed under sources of edges, or fails when a task has no contract |
| Dependencies.ClosureIsLeast | packages/domain/src/execution.ts:186 | every set that holds the target and is closed under sources contains the closure |
| Dependencies.ClosureUnaffected | packages/domain/src/execution.ts:186 | edges into tasks outside a closure do not change it |
| Plans.ParseTaskPlanOutput | packages/domain/src/execution.ts:77 | the parser accepts exactly the plan outputs with valid items, distinct edge texts and no cycle |
| Plans.DependencyEdges | packages/domain/src/execution.ts:77 | its loop builds one edge per dependency, or stops at an unknown key |
| Plans.DerivePlanAdoption | packages/domain/src/execution.ts:81 | the loops give exactly the derived children and edges, an edge per dependency and one to the source from each child that no other child needs; what each of them says is in PlanDerivation |
| Plans.PlanAdoption | packages/domain/src/execution.ts:77-81 | adopting a plan with free ids onto an acyclic graph gives an acyclic graph; every child reaches the source, whose closure grows by exactly the children and their edges |
| Plans.AcceptedExactly | packages/domain/src/execution.ts:77 | a plan whose items are valid and form no cycle is accepted if and only if its edge texts are unambiguous |
| Plans.ColonFreeKeysUnambiguous | packages/domain/src/execution.ts:77 | keys without a colon never collide |
| Plans.CollidingKeysRefused | packages/domain/src/execution.ts:77 | a concrete plan without a cycle, with colons in its keys, is refused |
| PlanDerivation.PlanOutputExactly | packages/domain/src/execution.ts:77 | plan output is accepted if and only if it has one to thirty-two items with no blank text and different keys, which depend on each other without repetition and without a cycle, and its edge texts are unambiguous |
| PlanDerivation.DerivedContracts | packages/domain/src/execution.ts:81 | each item of a plan gives, in order, a work contract with its texts for the source task |
| PlanDerivation.DerivedEdges | packages/domain/src/execution.ts:81 | an edge is derived if and only if it requires success, allows no listed outcomes, propagates cancellation, and leads from a child to a child that depends on it or from a child that none depends on to the source task |
| Attempts.DispatchEvolves | packages/domain/src/tasks.ts:98-121 | every accepted input but the idempotent relaunch keeps terminal outcomes final, dates new ones, and never leads back to planned |
| Attempts.ResolveMeaning | packages/domain/src/tasks.ts:29-43 | success is won by the earliest successful terminal event, then the lowest generation; otherwise the task waits for every attempt |
| Attempts.ResolveIgnoresOrder | packages/domain/src/tasks.ts:30-38 | the resolution does not depend on the order in which the attempts are listed |
| Attempts.ResolveStable | packages/domain/src/tasks.ts:29-43 | once the attempts resolve, any later evolution of them resolves the same way with the same winner |
| AttemptLaws.OpenAttemptMoves | packages/domain/src/tasks.ts:108-121 | for each state and input other than a receipt: whether it is allowed, where it leads, and that it records a named handle or only a finding when the handle is another one |
| AttemptLaws.TerminalAttemptFinds | packages/domain/src/tasks.ts:98-109 | an attempt that has ended takes every input as a finding, with the code of what came late |
| AttemptLaws.ReceiptMoves | packages/domain/src/tasks.ts:100-107 | a receipt ends exactly the open attempts that were handed off and whose handle it does not contradict |
| AttemptLaws.ResolutionRecords | packages/domain/src/tasks.ts:29-43 | a resolution lists the outcomes of exactly the attempts that have ended, by rising generation, with the reason, the policy and the cursor |
| AttemptKeys.KeyTextInjective | packages/domain/src/execution.ts:173 | two attempts have the same key text only if they are the same, whatever their ids contain |
| ExecutionReducer.ClosureOf | packages/domain/src/execution.ts:186 | in a consistent projection the search returns the mathematical closure of a known task |
| ExecutionReducer.HeldBy | packages/domain/src/execution.ts:174 | the scan of the workflows finds a running one that depends on a task exactly when there is one |
| ExecutionReducer.RecordContracts | packages/domain/src/execution.ts:184 | the adoption loop succeeds exactly when all derived ids are free and distinct, and then adds exactly the derived contracts as drafts |
| ExecutionReducer.Reduce | packages/domain/src/execution.ts:174-185 | the imperative reducer, with its searches and loops, computes exactly the step defined over closures, acyclicity and reachability, whose acceptance and effect ExecutionEffects states for each of the fifteen events |
| ExecutionEffects.TaskCreatedEffect | packages/domain/src/execution.ts:184 | when the event is accepted, and that it adds exactly the contract as a draft |
| ExecutionEffects.TaskActivatedEffect | packages/domain/src/execution.ts:184 | exactly a known draft becomes active, and nothing else changes |
| ExecutionEffects.DependencyAddedEffect | packages/domain/src/execution.ts:184 | an edge is added exactly when its dependent may still change, its id is new and the graph stays well formed and acyclic |
| ExecutionEffects.ExecutionPreparedEffect | packages/domain/src/execution.ts:184 | an attempt is prepared exactly when its record is consistent, its task is active with all attempts ended, its workflow permits the launch, and its join freezes every satisfied edge; then it is planned with its digests |
| ExecutionEffects.ExecutionTransitionEffect | packages/domain/src/execution.ts:184 | a transition moves exactly the named attempt, by the dispatch rules, and never by a receipt or a manual outcome |
| ExecutionEffects.ExecutionReceiptEffect | packages/domain/src/execution.ts:184 | a receipt is accepted exactly when it is of the run, the attempt and the binding as prepared and, for a success, observed on the prepared profile; the same receipt again changes nothing |
| ExecutionEffects.ExecutionAbortedEffect | packages/domain/src/execution.ts:184 | exactly a planned attempt is aborted, with the reason and the time |
| ExecutionEffects.TaskResolvedEffect | packages/domain/src/execution.ts:184 | a resolution is accepted exactly when resolving the attempts of the task on its request gives it; a draft can only be cancelled |
| ExecutionEffects.TaskPlanProposedEffect | packages/domain/src/execution.ts:174-184 | a plan is recorded exactly for a planner that succeeded on the source task under its present contract and has no other outcome; it becomes the latest and withdraws a rejection |
| ExecutionEffects.TaskPlanRevisedEffect | packages/domain/src/execution.ts:174-183 | a revision is accepted exactly on the latest plan of a draft that nothing was adopted, prepared or run for |
| ExecutionEffects.TaskPlanRejectedEffect | packages/domain/src/execution.ts:184 | a rejection is recorded exactly for a planner of the task without a plan, and never changed |
| ExecutionEffects.TaskPlanAdoptedEffect | packages/domain/src/execution.ts:184 | a recorded plan is adopted exactly once for a task that may still change; the derived contracts become drafts, the derived edges are added and the children are listed in order |
| ExecutionEffects.WorkflowStartedEffect | packages/domain/src/execution.ts:184 | the conditions under which a workflow starts, and that it starts running with no reason |
| ExecutionEffects.WorkflowPlanBoundEffect | packages/domain/src/execution.ts:184 | a running auto-planning workflow without a graph is bound exactly to an adopted plan of its target and the digest of its present graph |
| ExecutionEffects.WorkflowStoppedEffect | packages/domain/src/execution.ts:184 | when a stop is accepted, and that it leaves the workflow with exactly the state and the reason of the event under the same authorization, and nothing else changed |
| ExecutionEffects.LaunchPermittedExactly | packages/domain/src/execution.ts:187-205 | a launch is permitted if and only if each stated condition holds, the times of the authorization and of its parent among them; an expired authorization is refused as expired |
| ExecutionLaws.EveryEventFrames | packages/domain/src/execution.ts:174-185 | every accepted event changes only the components that are its own |
| ExecutionSafety.StepKeeps | packages/domain/src/execution.ts:174-185 | every accepted event keeps the whole invariant and loses nothing that was recorded |
| ExecutionRuns.RunInv | packages/domain/src/execution.ts:174-185 | the invariant holds in every state of every run, including runs with the two legacy task events |
| ExecutionRuns.FrozenGraphNeverChanges | packages/domain/src/execution.ts:174-205 | while a workflow with a graph digest runs, the closure of its target keeps the same tasks, contracts and edges, under exactly that digest |
| ExecutionRuns.LaunchDigestsStillHold | packages/domain/src/execution.ts:187-205 | in a reachable state the contract and graph digests re-checked at launch never fail; a launch fails for its graph only if there is none yet or the task is not in it |
| ExecutionRuns.OnlyAuthorisedTasksPrepared | packages/domain/src/execution.ts:184-205 | whatever was prepared under a workflow is a task of the graph it was authorised for, under the authorised profile |
| ExecutionLaws.StoppedForGood | packages/domain/src/execution.ts:184 | after an accepted stop the workflow has its state and reason, under the authorization it had, in every later state of the run: it never runs again |
| ExecutionLaws.StopBetween | packages/domain/src/execution.ts:184 | a workflow that runs at one time of a run and not at a later one was stopped in between by an event with exactly that state and reason |
| ExecutionLaws.NonePreparedAfterStop | packages/domain/src/execution.ts:184-205 | every attempt that was ever prepared under a stopped workflow was prepared before the stop |
| ExecutionInvariants.WorkflowsApart | packages/domain/src/execution.ts:184 | in every state of every run no two running workflows have the same target, and no workflow expires after its parent |
| ExecutionInvariants.LaunchedInTime | packages/domain/src/execution.ts:187-205 | whatever was prepared under a workflow was prepared before its authorization expired, and before its parent's did |
| ExecutionInvariants.AttemptsBound | packages/domain/src/execution.ts:184 | in every state of every run an attempt carries the digests of the binding and the profile it was prepared with |
| ExecutionInvariants.ReceiptsFit | packages/domain/src/execution.ts:184 | every receipt on record is of its attempt as prepared, by the allowed producer, and a success was observed on the prepared profile |
| ExecutionInvariants.JoinsStayExact | packages/domain/src/execution.ts:184 | in every state of every run the join of a prepared attempt has exactly one entry for each edge that leads into its task, with the generation that won the source |
| ExecutionInvariants.EdgesAreValid | packages/domain/src/tasks.ts:45-51 | every edge of a run joins two known tasks, has its own id, and lists distinct outcomes exactly when it requires one of them |
| ExecutionRuns.DependenciesResolvedFirst | packages/domain/src/execution.ts:174-184 | if an attempt of a task was ever prepared, every edge now into the task has a recorded resolution that satisfies it |
| ExecutionRuns.SuccessChainSucceeded | packages/domain/src/execution.ts:174-184 | every task that reaches a prepared one through requires_success edges alone has resolved as succeeded |
| ExecutionRuns.AtMostOneLiveAttempt | packages/domain/src/execution.ts:184 | two attempts of one task are never live at once |
| ExecutionRuns.NeverPlannedAgain | packages/domain/src/tasks.ts:98-121 | over a run an attempt that has left planned never returns to it |
| ExecutionRuns.LaunchIntentCommittedOnce | packages/domain/src/tasks.ts:98-121 | launch intent is committed at most once for each attempt |
| ExecutionRuns.AbortExcludesReceipt | packages/domain/src/execution.ts:184 | no attempt is aborted at one time of a run and given a receipt at another |
| ExecutionRuns.RecordedResolutionIsStable | packages/domain/src/tasks.ts:29-43 | after a resolution is recorded, resolving again with the same request in any later state gives the same resolution and winner |
| ExecutionRuns.AdoptionSucceeds | packages/domain/src/execution.ts:184-186 | on a reachable state the graph check of an adoption with free ids never fails, and the source then waits for exactly its old dependencies and the children |
| ExecutionPlans.PlanOutcomesAreFinal | packages/domain/src/execution.ts:174-184 | over a run a planner's outcome is a plan or a rejection, never both and never changed, plans keep their digests, and a task has at most one adopted plan |
| ExecutionPlans.AdoptedPlanStays | packages/domain/src/execution.ts:174-184 | in every state after an adoption the graph is acyclic, the children are known and each still leads to the source task |
| ExecutionAdoptions.AdoptedChildren | packages/domain/src/execution.ts:81-184 | what is on record for an adopted plan is, in every state of every run, the ids of its children in the order of its items |
| ExecutionAdoptions.ChildrenSucceedFirst | packages/domain/src/execution.ts:81-184 | if a plan of a task was adopted in some state and an attempt of the task is prepared in a later one, every child of the plan has a recorded resolution there and it is a success |
| ExecutionAdoptions.PlannersSucceeded | packages/domain/src/execution.ts:174-184 | in every state of every run a plan on record was proposed by a planner that succeeded on the source task, under the contract that the source task has |
| ExecutionReceipts.ReceiptEndsAttempt | packages/domain/src/tasks.ts:98-107 | recording a new receipt ends an open attempt if and only if the attempt has no handle or the receipt names it; otherwise only a finding is added |
| ExecutionReceipts.OpenForGood | packages/domain/src/execution.ts:184 | an attempt left open by its recorded receipt stays open in every later state, and no attempt is ever prepared for its task again |
| ExecutionExamples.RunLeftOpen | packages/domain/src/tasks.ts:98-107 | a run of six events in which a receipt names another handle than the attempt has, and the attempt is left open |
| ExecutionLegacy.UnrecordedExactly | packages/domain/src/receipt.ts:206-213 | in every state of every run, a task is resolved without a recorded resolution if and only if the older event named it while it was known |
| ExecutionLegacy.StepRecords | packages/domain/src/execution.ts:174-185 | no event of the execution reducer changes which tasks are resolved without a recorded resolution |
| ExecutionExamples.ResolvedWithoutRecord | packages/domain/src/receipt.ts:172-178 | for every task, a run of the two older events that resolves it without a record |
| Pointers.DecodeIsUnescape | packages/domain/src/delta.ts:19-21 | replacing ~1 and then ~0 is the left-to-right decoding of section 4 of RFC 6901 |
| Pointers.EncodeIsEscape | packages/domain/src/delta.ts:13 | replacing ~ and then / is the character-wise escaping |
| Pointers.AcceptedPointers | packages/domain/src/delta.ts:14-25 | a pointer is accepted exactly when it is empty or starts with a slash and has valid escapes; the re-encoding check then never fails |
| Pointers.PointerRoundTrip | packages/domain/src/delta.ts:13-25 | token lists and accepted pointers determine each other |
| Pointers.OverlapIsPrefix | packages/domain/src/delta.ts:91-92 | two pointers are equal or overlap as texts exactly when the tokens of one are a prefix of the other's |
| Pointers.IntersectionIsBoth | packages/domain/src/delta.ts:32-43 | a path is in the intersection of two scopes exactly when it is in both |
| Delta.ParentAndKey | packages/domain/src/delta.ts:45-57 | the walk returns the parent container of a path, if there is one |
| Delta.Read | packages/domain/src/delta.ts:58-67 | the value at a path, found through its parent, is the one the recursive reading finds |
| Delta.Frame | packages/domain/src/delta.ts:95-126 | an edit changes nothing at any path incomparable with its region: the path, or the parent array when elements move |
| Delta.ElementsShift | packages/domain/src/delta.ts:107-125 | inserting or removing an element moves every later element, with all below it, by exactly one index |
| Delta.ArrayEditStaysAtTheEnd | packages/domain/src/delta.ts:107-125 | an insertion or removal in an array changes nothing beside its own path if and only if it is at the end |
| Delta.EditsCommute | packages/domain/src/delta.ts:95-126 | edits at incomparable paths that move no elements commute |
| Delta.EditUndone | packages/domain/src/delta.ts:95-126 | every edit is undone by its inverse at the same path |
| DeltaEngine.ApplyDelta | packages/domain/src/delta.ts:70-129 | the loops over paths, overlaps and operations give exactly the outcome that AcceptedWhen, ConflictedExactly and RejectedOnEveryBase characterise |
| DeltaEngine.ApplyOperation | packages/domain/src/delta.ts:94-126 | one turn of the loop: the guarded edit, or the first guard that fails |
| DeltaEngine.WritesRefused | packages/domain/src/delta.ts:91-92 | the duplicate and overlap tests refuse exactly the write lists in which some token path is a prefix of another |
| DeltaFailures.InOrderMeans | packages/domain/src/delta.ts:70-92 | the checks before the document is looked at pass if and only if all roots and paths are pointers, each path is at or below a root, and no write is at, above or below another |
| DeltaFailures.RejectedOnEveryBase | packages/domain/src/delta.ts:70-92 | if they do not pass, the outcome is a rejection that does not depend on the base, with the reason of the first bad path or of the writes |
| DeltaFailures.ConflictedExactly | packages/domain/src/delta.ts:68-129 | a delta conflicts if and only if those checks pass and the first operation that fails is not an addition or removal of the root; the outcome carries the reason of that operation |
| DeltaFailures.OutcomeInOrder | packages/domain/src/delta.ts:93-129 | the outcome when those checks pass |
| DeltaFailures.WhyItFails | packages/domain/src/delta.ts:94-126 | the reason of a failing operation, by what it meets in the document |
| DeltaFailures.CurableFailure | packages/domain/src/delta.ts:68-126 | a failure is one a newer base may cure exactly when it is not at the root |
| DeltaFailures.AdditionIsExact | packages/domain/src/delta.ts:99-111 | an addition goes through if and only if its container is there as the operation names it and has room for the key |
| DeltaFailures.OperationTakesEffect | packages/domain/src/delta.ts:94-126 | after an operation its value is at its path, or its member is gone, and a test changes nothing |
| DeltaLaws.AcceptedWhen | packages/domain/src/delta.ts:70-129 | a delta is accepted if and only if its paths are in scope, its writes independent, each operation applies where it meets the document, and the document changes |
| DeltaLaws.AcceptedDocument | packages/domain/src/delta.ts:93-128 | an accepted document is canonical, differs from the base, and its state hash names exactly it |
| DeltaLaws.GuardIsExact | packages/domain/src/delta.ts:99-111 | a test, replacement or removal guarded by the digest of a value goes through if and only if that value is at the path, up to the sign of zero |
| DeltaLaws.DeltaFrame | packages/domain/src/delta.ts:93-129 | an accepted delta leaves the base unchanged at every path incomparable with the regions of its writes |
| DeltaScope.ScopeConfines | packages/domain/src/delta.ts:70-129 | an accepted delta changes nothing outside its scope if each insertion or removal in an array has the whole array in scope or is at the end of the array |
| DeltaScope.StaysInScopeAtTheEnd | packages/domain/src/delta.ts:70-129 | an accepted delta, whose scope meets each array that gains or loses an element only at the path of the operation, changes nothing outside the scope if and only if all those operations are at the end of their arrays |
| DeltaScope.RemovalLeavesScope | packages/domain/src/delta.ts:89-125 | removing the first of any two elements, in the scope of that element alone, is accepted and takes the other from where it was |
| DeltaLaws.DeltaOrder | packages/domain/src/delta.ts:89-129 | any permutation of an accepted list of replacements and object-member removals is accepted with the same document |
| DeltaUndo.DeltaUndone | packages/domain/src/delta.ts:70-129 | every accepted delta has an inverse delta that is accepted in the same scope and restores the base |
| Canonical.SortedKeysIncrease | packages/domain/src/canonical.ts:66 | object keys are written strictly increasing by UTF-16 code units (section 3.2.3 of RFC 8785) |
| Canonical.ParseSerialized | packages/domain/src/canonical.ts:60-67 | reading a serialized value returns it, up to the sign of zero, and leaves what follows it; CanonicalText says which of the texts that read so is written |
| CanonicalText.QuoteIsShortest | packages/domain/src/canonical.ts:63 | of all texts that are read as a string, the one that is written is the shortest, and the only one of its length with hexadecimal digits in lower case (section 3.2.2.2 of RFC 8785) |
| CanonicalText.QuoteIsLower | packages/domain/src/canonical.ts:63 | the text that is written is read as the string and has its hexadecimal digits in lower case |
| CanonicalText.KeyOrder | packages/domain/src/canonical.ts:66 | comparing keys by UTF-16 code units is comparing them by their first different character, with the characters beyond U+FFFF between U+D7FF and U+E000 |
| CanonicalText.KeysAreWrittenInOrder | packages/domain/src/canonical.ts:66 | a reader of a written object meets each of its keys once, in that order |
| CanonicalText.NumberIsLaidOut | packages/domain/src/canonical.ts:64 | a number has a sign exactly when it is negative and not zero, plain form exactly when its point is above -6 and at most 21, and otherwise a mantissa with an exponent without leading zeros |
| Numbers.ReadBack | packages/domain/src/canonical.ts:64 | the text of a number reads back as the number, but for the sign of zero |
| Canonical.DeepClone | packages/domain/src/canonical.ts:108-110 | cloning through canonical JSON gives the value back with its negative zeros made positive |
| Canonical.CanonicalInjective | packages/domain/src/canonical.ts:60-73 | two values have the same canonical text if and only if they are equal up to the sign of zero |
| Canonical.DomainDigestInjective | packages/domain/src/canonical.ts:79-81 | messages of NUL-free domains are equal if and only if the domains and the values are |
| CanonicalText.MessageParts | packages/domain/src/canonical.ts:79-81 | what is hashed is the domain, a NUL and the canonical text |
| CanonicalText.DigestsApart | packages/domain/src/delta.ts:99-128 | values and documents are hashed in two different domains, so no digest of a value is the state hash of a document |
| Base32.LowercaseBase32NoPadding | packages/domain/src/canonical.ts:83-98 | with the accumulator wrapping at 32 bits, the output is the unpadded encoding of section 6 of RFC 4648 |
| Base32.EncodedLength | packages/domain/src/canonical.ts:83-98 | n bytes give ceil(8n/5) symbols |
| Base32.DecodeEncode | packages/domain/src/canonical.ts:83-98 | decoding the output gives the bytes back |
| Base32.EncodedNumber | packages/domain/src/canonical.ts:83-98 | the output is in the symbols a to z and 2 to 7 and, read as a number in base 32, is the bytes as a number in base 256 shifted by the bits that complete the last symbol |
| Policy.CompareUtf8 | packages/policy/src/lifecycle.ts:25-29 | the loop over the bytes has the sign of the lexicographic comparison of the UTF-8 encodings |
| Policy.Utf8OrderIsCodePointOrder | packages/policy/src/lifecycle.ts:25-29 | comparing UTF-8 bytes (section 3 of RFC 3629) is comparing code points |
| Policy.TotalOrder | packages/policy/src/lifecycle.ts:25-29 | the comparison is a total order on strings |
| Policy.SortedUnique | packages/policy/src/lifecycle.ts:40-43 | the neighbour checks accept exactly the strictly increasing lists |
| Events.VerifyEventChain | packages/domain/src/events.ts:209-242 | the loop reports the first fault of a chain, or none |
| Events.ValidChainMeans | packages/domain/src/events.ts:209-242 | a chain is valid if and only if it starts with a genesis and every event fits the one before it |
| Events.HeadPinsHistory | packages/domain/src/events.ts:209-242 | if the head hash of one valid chain occurs in another, the first is a prefix of the second, up to the sign of zeros |
| ChainLaws.ValidChainExactly | packages/domain/src/events.ts:209-242 | a chain is valid if and only if it starts with the genesis of a workspace or a run and each event stands at its place, after the hash before it, signed, under the hashes of what it says |
| ChainLaws.ParsesExactly | packages/domain/src/events.ts:134-147 | a payload parses if and only if its texts are present and, for an execution event, the event parses |
| ChainLaws.TypeTells | packages/domain/src/events.ts:134-147 | two payloads that parse have the same event type if and only if they are of the same kind |
| ChainLaws.PayloadChanged | packages/domain/src/events.ts:209-242 | in a valid chain, another payload at any place under the hashes that are there is reported as a wrong payload hash |
| ChainLaws.EnvelopeChanged | packages/domain/src/events.ts:209-242 | another author, cause or payload under its own payload hash is reported as a wrong envelope hash |
| ChainLaws.EventDropped | packages/domain/src/events.ts:209-242 | leaving out any event but the last is reported as a break of the chain |
| ChainLaws.OnlyBeginnings | packages/domain/src/events.ts:209-242 | of the events of a valid chain, exactly the beginnings make a valid chain |
| Events.SealedEventExtends | packages/domain/src/events.ts:184-187 | a sealed event extends a valid chain if and only if its draft comes next in the stream |
| ChainLaws.SealKeepsTheDraft | packages/domain/src/events.ts:184-187 | sealing fills in the payload hash of a draft and nothing else |
| Events.WorkspaceGenesisValid | packages/domain/src/events.ts:190-194 | a workspace genesis is a valid chain if and only if its inputs are not empty, and its cursor names the head |
| Events.RunGenesisValid | packages/domain/src/events.ts:196-201 | the same for a run genesis |
| ChainLaws.WorkspaceGenesisReplays | packages/domain/src/events.ts:190-194 | a workspace genesis replays to the workspace that was asked for |
| RunHistory.RunGenesisReplays | packages/domain/src/events.ts:196-201 | a run genesis replays to the run that was asked for, with its document up to the sign of zeros |
| WorkspaceLedger.DeterministicWorkspaceReplay | packages/domain/src/receipt.ts:118-142 | the loop computes the fold of the workspace reducer, or the first refusal |
| WorkspaceLedger.QuotaConservation | packages/domain/src/receipt.ts:63-116 | in every replayed workspace decision ids are distinct, every decision is in the admission of its proposal and charged to its quota, histories and observed lists are exactly the decisions, the latest decision is the last of its history, the consumed count is the number of the quota's accepted proposals, none consumes twice, and the epoch follows the sequence |
| WorkspaceHistory.PolicyIsTheLast | packages/domain/src/receipt.ts:82-116 | every replayed workspace is the one its genesis created, under the policy that the last event about a policy names |
| LedgerLaws.AdmissionEffect | packages/domain/src/receipt.ts:94-113 | an admission is taken if and only if it comes next, consumes exactly when it accepts, has a new decision id, and fits the admission and the quota on record; then it is the last of its admission, observed by its quota, and charged if it accepts |
| LedgerLaws.PolicyEffect | packages/domain/src/receipt.ts:88-92 | a policy event is taken exactly when it comes next, and changes the policy alone |
| LedgerLaws.DecisionsMoveOn | packages/domain/src/receipt.ts:61-116 | in every replayed workspace each decision of a history may follow the one before it: none follows an acceptance, a rejection or a conflict, and a conflict follows none |
| WorkspaceLedger.EqualHeadsEqualWorkspaces | packages/domain/src/receipt.ts:118-142 | valid chains with the same head hash replay to the same workspace |
| RunReplay.DeterministicReplay | packages/domain/src/receipt.ts:226-281 | the loop, with the imperative execution reducer inside, computes the fold of both run reducers, or the first refusal |
| RunReplay.ReduceOperational | packages/domain/src/receipt.ts:156-217 | one event of the operational reducer |
| RunReplay.CanonicalLedger | packages/domain/src/receipt.ts:42-59 | in every replay the revision counts the deltas, no proposal has two, each starts from the hash left before it, the hash names the document, and the epoch is the last sequence minus one |
| RunHistory.ReplayedAsSaid | packages/domain/src/receipt.ts:156-217 | in every replay the proposals, receipts, task states, titles, ids and the document are exactly what the last events about each of them say |
| RunEffects.EventsNameTheirRun | packages/domain/src/receipt.ts:226-281 | in every replay only the first event creates the run, and each event that names a run names this one |
| RunEffects.EventTaken | packages/domain/src/receipt.ts:156-217 | an event without a document is taken if and only if it comes next, names its stream and changes the operational state |
| RunEffects.DeltaTaken | packages/domain/src/receipt.ts:42-59 | a delta event is taken if and only if it comes next, starts from the current hash, names its document and its proposal may still be accepted; the two projections it leaves |
| RunEffects.SubmittedEffect | packages/domain/src/receipt.ts:180-185 | a proposal is submitted exactly once |
| RunEffects.DecidedEffect | packages/domain/src/receipt.ts:192-199 | a decision is taken exactly on a known proposal that it may follow, or that it accepts once more |
| RunEffects.ReceiptEffect | packages/domain/src/receipt.ts:200-205 | a receipt is recorded exactly once, as the event says |
| RunEffects.LegacyCreatedEffect | packages/domain/src/receipt.ts:172-179 | an older task is created exactly under a new id, as a draft of work with its title for instructions |
| RunEffects.LegacyResolvedEffect | packages/domain/src/receipt.ts:206-213 | an older resolution is taken exactly for a task without a state, and ends the lifecycle only of a known task |
| RunEffects.ExecutedEffect | packages/domain/src/receipt.ts:165-171 | an execution event is taken exactly when its reducer takes it; titles and task states follow the projection |
| RunReplay.ReplayedExecutionIsARun | packages/domain/src/receipt.ts:156-217 | the execution projection of a replay is the last state of a run of the execution reducer, and every resolved lifecycle is in the task states |
| RunViews.TaskStatesExactly | packages/domain/src/receipt.ts:165-171 | in every replay the task states are of exactly the tasks with a resolved lifecycle and those the older event names; they are the resolved lifecycles if and only if each of the latter has one |
| RunViews.LegacyAgreesWhenKnown | packages/domain/src/receipt.ts:206-213 | where task states and resolved lifecycles agree, the older event keeps them in agreement if and only if its task is known |
| RunViews.ReplayHoldsMore | packages/domain/src/receipt.ts:206-213 | for any task, a genesis and the older event for it replay to a task state without a lifecycle |
| RunProposals.DecisionTaken | packages/domain/src/receipt.ts:192-199 | a decision is taken if and only if the proposal is known by its digest and may move there, or is accepted once more; the duplicate error is given exactly for the other decisions on a decided proposal that has a provenance and is not open |
| RunProposals.FinalForGood | packages/domain/src/receipt.ts:180-199 | on a stream, an accepted, rejected or conflicted proposal never changes its status or digest, and every later event about it accepts an accepted one once more |
| RunReplay.EqualHeadsEqualRuns | packages/domain/src/receipt.ts:226-281 | valid chains with the same head hash replay to the same projections |
| RunReplay.AcceptedDeltaIsRecorded | packages/domain/src/receipt.ts:42-59 | the event that records an accepted delta on the current document is taken by a replay if and only if it comes next in the stream, starts from the current hash and is for an open proposal; then both projections move exactly by that delta, that acceptance and the counters |
| Grants.ActiveInLineage | apps/daemon/src/grant-store.ts:29-41 | the walk to the root equals the recursion without the guard against repetition, which never fires |
| Grants.ActiveMeansAllAncestorsLive | apps/daemon/src/grant-store.ts:29-41 | a grant is active if and only if every ancestor, itself included, is unrevoked and unexpired |
| Grants.ReachableStoreIsGood | apps/daemon/src/grant-store.ts:49-79 | in every reachable store digests and references are unique, parents precede children and every issuance names a grant |
| Grants.InactiveForGood | apps/daemon/src/grant-store.ts:29-79 | in every history an inactive grant is inactive in all later states at all later times |
| Grants.RevocationCascades | apps/daemon/src/grant-store.ts:79 | revoking a grant deactivates it and all its descendants in every later state at every time |
| Grants.ReissueIsIdempotent | apps/daemon/src/grant-store.ts:53-63 | issuing again with the same operation id and request digest gives the first reference and time, and stores nothing |
| GrantIssuance.IssueAnsweredExactly | apps/daemon/src/grant-store.ts:49-78 | an issuance is answered if and only if the store can be read, the observation is of this state by an active issuer, and the request is in order under an active parent, or was answered before with the same digest |
| GrantIssuance.IssuanceStores | apps/daemon/src/grant-store.ts:66-78 | what an issuance leaves: a new grant is appended with its core, the drawn reference and its parent, unrevoked; a known one is given again; the operation is recorded with the digest and the time |
| GrantIssuance.IssuedUnder | apps/daemon/src/grant-store.ts:66-78 | the returned reference names a grant with exactly the parent that was asked for |
| GrantIssuance.ParentIsAncestor | apps/daemon/src/grant-store.ts:29-41 | the parent of a grant is an ancestor of it |
| GrantIssuance.IssuedDiesWithParent | apps/daemon/src/grant-store.ts:29-79 | in every history, once the parent of an issued grant is revoked in some later state, the grant that the returned reference names is inactive in every state from then on and at every time |
| GrantIssuance.IssuedStays | apps/daemon/src/grant-store.ts:49-79 | in every history the returned reference goes on naming a grant with the core and the parent that were asked for |
| GrantIssuance.RevokedExactly | apps/daemon/src/grant-store.ts:79 | a revocation is stored if and only if the caller is authorised and the reference names an unrevoked grant; then exactly that grant is revoked |
| GrantIssuance.RootAtFirst | apps/daemon/src/grant-store.ts:26 | a store begins with one root, active exactly until it expires |
| Grants.IssueKeeps | apps/daemon/src/grant-store.ts:12-78 | issuing keeps the store good; what is stored can be read back if and only if the clock could be read or no operation was named |
| Grants.UnreadableClockStored | apps/daemon/src/grant-store.ts:12-78 | from the initial state, an issuance with a named operation and an unreadable clock is answered and stores a state that cannot be read back |
| Grants.UnreadableRefuses | apps/daemon/src/grant-store.ts:27-79 | on a state that cannot be read back every issue and revoke is refused |
| Grants.UnreadableIsLast | apps/daemon/src/grant-store.ts:27-79 | in every history such a state is the last |
| Grants.GrantStore.IssueGrant | apps/daemon/src/grant-store.ts:49-78 | the new state, revision and result of the method are those of an issuance, as IssueAnsweredExactly and IssuanceStores characterise it |
| Grants.GrantStore.RevokeGrant | apps/daemon/src/grant-store.ts:79 | the new state, revision and result of the method are exactly those specified |
| Grants.GrantStore.Observe | apps/daemon/src/grant-store.ts:81-87 | an observation is given exactly for active grants, with the revision and state it was made in |
| Grants.GrantStore.AssertMutationAuthority | apps/daemon/src/grant-store.ts:42-48 | a mutation is refused exactly when the observation is stale or its issuer is not active |
| Delivery.RunInv | adapters/pi/src/index.ts:215-291 | over any number of processes and crashes between any two actions, the record, the lock, the trace and every process agree |
| Delivery.NeverStuck | adapters/pi/src/index.ts:217-250 | the compare-and-set never conflicts under the lock and every retained value is there |
| Delivery.DeliveryOrder | adapters/pi/src/index.ts:206-236 | persisted phases rise by exactly one per write, calls keep the step order, and a step whose completion is persisted is never called again |
| Delivery.DecidedIsFinal | adapters/pi/src/index.ts:214-220 | once the decision is persisted no delivery step is called and nothing is written |
| Delivery.FinishedReturnsPersisted | adapters/pi/src/index.ts:285-288 | every finished delivery returns what the decided record says, so any two return the same |
| Delivery.SealedReturnStays | adapters/pi/src/index.ts:221-234 | after creation only the resume token of the retained return ever changes |
| DeliveryAnswers.BeginsOnItsOwnReturn | adapters/pi/src/index.ts:251-284 | a later delivery goes on exactly when its receipt, artifact and evidence digests are those of the record; otherwise it leaves the record and frees the lock |
| DeliveryAnswers.BeginCreates | adapters/pi/src/index.ts:279-283 | a first delivery creates the record of its own return, with nothing completed |
| DeliveryAnswers.RecordWasCreated | adapters/pi/src/index.ts:221-284 | behind every record there is the delivery that created it, and only the resume token was filled in since |
| DeliveryAnswers.RecordFromAnswers | adapters/pi/src/index.ts:217-236 | in every run the receipt digest, the token and the decision of the record are answers that the authority gave in this run |
| DeliveryAnswers.FinishedReturnsAnswers | packages/adapter-kit/src/index.ts:58-74 | whatever a finished delivery returns was given by the authority in this run, on the return that was sealed at first |
| DeliveryAnswers.ObservedWithToken | packages/adapter-kit/src/index.ts:66-72 | the decision is observed with the token on record, which is not empty |
| DeliverySubstitution.ComparedAfterwards | adapters/pi/src/index.ts:217-236 | in every run the write after an answered proposal persists its phase, and the process goes on if and only if the answer given in its call names the proposal of the decision |
| DeliverySubstitution.PassedSomehow | adapters/pi/src/index.ts:217-249 | a delivery past its proposal asked for it and got an answer in scope, or found it retained |
| DeliverySubstitution.PassedOnce | adapters/pi/src/index.ts:217-249 | it did so in one action only, so never both |
| DeliverySubstitution.StoredOnce | adapters/pi/src/index.ts:217-236 | the proposal of a return is stored at most once in a run |
| DeliverySubstitution.FinishedDelivery | packages/adapter-kit/src/index.ts:63-74 | a finished delivery made its own comparison if and only if it is the one that asked; after a substituted answer it found the proposal retained |
| DeliverySubstitution.SubstitutedAndFinished | packages/adapter-kit/src/index.ts:63-74 | every return and every answer that names another proposal have a run in which that answer is persisted and a delivery finishes |
| DeliveryRuntime.RetainedDelivery.Perform | adapters/pi/src/index.ts:217-237 | a step asks the client exactly when it is not completed, and persists exactly the completed record |
| DeliveryRuntime.RetainedDelivery.Deliver | packages/adapter-kit/src/index.ts:58-74 | one delivery asks exactly the steps that are not retained, in order; it succeeds if and only if the client serves each, and returns what the decided record says; otherwise it stops at the first step not served, which is persisted only if it is an answered proposal |

## Left out

- Strings with lone surrogates: Dafny strings are sequences of Unicode scalar values, so the checks that refuse ill-formed UTF-16 always pass.
- Field-by-field parsers, DTO shapes and the parsing of prepared records, fork pins, joins and manifests: only the facts that the reducers rely on are kept, and their failures carry one code.
- Fields that no modelled rule reads: completion policies, evaluation clocks, observation cursors inside events, leases, manifests and most of the execution profile.
- SHA-256 and Ed25519: digests are symbolic and collision-free; checkpoints and signatures are not part of this model.
- The JSON tree of a delta is edited on values: updating a cloned tree in place, and aliasing inside it, is not modelled.
- The operation result digest of a delta, proposal sealing and receipt sealing: further symbolic digests with no rule of their own.
- JavaScript objects are finite maps: prototype keys, property descriptors, insertion order and `structuredClone` are not modelled, and locale collation is replaced by sets.
- `evaluateDependencies`, `deriveSchedulability`, `scheduleRetry` and `assertTaskWorkflowAdoptionV1`: callers' checks outside the reducer.
- File system records, locks, `fsync`, process incarnation and stale-lock takeover: the delivery model assumes a working lock per attempt, released by a crash, and an atomic record replacement.
- SQLite authority internals: the grant store keeps one state with a revision, and its compare-and-swap happens in the call that read it.
- Policy evaluation, activation and rule parsing beyond the canonical order: small case analyses.
- JSON numbers are their shortest decimals, as ECMAScript prints them; the conversion to and from binary doubles is not modelled.
- The clock of the grant store is read once for each call, where the source may read it twice.
- Collecting the receipt and sealing the proposal of a delivery are inputs of its first action; only the six delivery steps are traced.
- CLI, transport, bootstrap, daemon lifecycle and host-specific adapters other than the shared delivery code.
- ExecutionReducer.Reduce: requires a projection with a well-formed graph and workflows on known tasks, which every reachable state has by ExecutionRuns.RunInv.
- Pointers.IntersectionIsBoth: requires both scopes to have valid roots and the same workspace, run and task, because the source throws otherwise.
- Grants.ReissueIsIdempotent: the later call must pass the authority check and name the store's workspace, as the source demands before it looks at the operation.
