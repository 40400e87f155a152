# Verified models of OPERATE's agent bookkeeping

OPERATE is a benchmark harness for long-running, tool-using agents. Its hard logic is the bookkeeping around the
agent and a few self-contained algorithms. This project models that logic in Dafny, one module per component, and
proves what each component promises over all inputs, all runs or all interleavings.

| module | models |
|---|---|
| `RealtimeCancellation` | cancelling a streamed provider turn: one worker thread, any number of cancelers, one non-reentrant lock, every interleaving of lock-atomic steps |
| `WorkingMemory` | the persistent working memory: two-pass budgeted trim, upserts, untrimmed writes |
| `ContextCompaction` | the carried conversation: message and character budgets, four fallbacks, append-only ledger |
| `PlanLifecycle`, `ResumeState` | pending plans behind shared aliases, their acknowledgement, and the export/import journal |
| `CausalFilter` | the two order-sensitive filters over the tool calls of one response |
| `ProviderRetry` | the bounded retry loop and the pairing of its request/response audit ledger |
| `JobShop` | earliest-finish dispatch for the flexible job shop |
| `FlowTime` | the same dispatch on identical machines: its total finish time is the least possible |
| `Counterfactual` | masking policies, replay of the recorded schedule, the report, per-call attribution |
| `EvidenceJoin` | the join of accepted control requests with their first physical effect |
| `CascadeBus` | the event bus with nested delivery batches |
| `DifficultyContract` | the difficulty contract and the calibrated level |
| `Common` | small value types and sequence facts |

Where the original updates fields in place, the model is a class whose methods are proved against a specification
function of the old state; the properties are lemmas about those functions. Where the original is an expression or a
step relation, the model is a function or a transition system. The code comes first: where it and its documentation
or its evident intention part, the model follows the code, a lemma gives a concrete input, and another gives the
exact condition under which the intention is met, for all inputs:

* **Memory cap.** The docstring of the trim (`baselines/llm_agent.py:3572`) calls the budget a hard cap on all
  records. Facts and commitments are written without a trim, so memory reaches budget + 2
  (`ReachableWithinBudgetPlusTwo`, `BudgetPlusTwoIsAttained`; exact condition `CapAfterWrite`).
* **Unique ids.** An item's own `id` field overrides the id the upsert removes by, so one event can be stored twice
  (`OwnIdCausesDuplicates`; exact condition `UpsertKeepsIdsUnique`).
* **Recomputable hashes.** A comment (`baselines/llm_agent.py:3447`) says that a compaction's hash can be recomputed
  from the ledger. Fitting a request to the provider's cap rewrites the latest carried event in place, while the ledger
  keeps the original, so a later compaction hashes a text the ledger never held (`RefittedEventIsLost`; exact condition
  `RecordIsRecomputableExactly`).
* **Append-only ledger.** Superseding a realtime turn puts messages and ledger back but keeps the compaction records, so
  the ledger can shrink under a record that hashes the rows taken off (`SupersededTurnLosesRecord`; exact conditions
  `LedgerOnlyGrowsExactly`, `RecordIsRecomputableExactly`).
* **Plan balance.** A draft round and a superseded turn put pending plans, active plan and history back but not the
  counts of confirmed and rejected plans, so a plan resolved inside one is counted again later (`DraftRoundUnbalances`;
  exact conditions `BalanceHoldsExactly`, `HistoryIsEverLoggedExactly`).
* **Audit pairing.** After a no-tools fallback, a deadline error names the request before the fallback's, so the
  fallback request keeps no response and an open identity record (`LateFallbackIsNeverAnswered`; exact condition
  `CallKeepsAuditPairedExactly`; what later calls do to it `CallAfterLateFallback`, `PassedOverForever`).
* **Batch transparency.** A handler subscribed inside an open batch receives matching events published before it
  (`LateSubscriberSeesThePast`; exact condition `TransparentExactlyWhenSubscribedInTime`).
* **Cancellation counter and records.** The counter can fall behind the recorded outcomes when a late canceler
  records between the two halves of a reset, and a pre-transport record becomes untrue when its turn id is begun again
  (`LateRecordingDesynchronisesCounter`, `ReusedTurnContradictsRecord`; exact conditions `CounterMatchesOutcomes`,
  `AppendContradictsRecordExactlyOnReuse`).
* **Group masks.** A group mask rebuilds every action, so it can change actions before its first target
  (`GroupMaskDisturbsEarlierTick`; exact conditions `GroupMaskAgreesExactly`, `GroupMaskIsItsCallsInTurnExactly`).
* **Re-ingested feedback.** A row with a plan id only can resolve another plan when seen again
  (`PlanIdAloneCanResolveLater`; exact condition `ReingestIsNoOpExactly`).
* **Repair budget.** A call dropped for budget is not marked unavailable, so its dependants survive with that
  dependency erased (`BudgetDropDoesNotPropagate`; exact conditions `DropsAreClosedExactly`, `NothingIsErasedExactly`).
* **Effect event id.** The ticks of the join do not depend on event order, the recorded event id does
  (`EventIdDependsOnOrder`; exact condition `EffectsAreOrderIndependentExactly`).

`dafny verify dfyconfig.toml` checks the whole project.

## Model

| member | source | states |
|---|---|---|
| JobShop.EarliestFinish | baselines/greedy_heuristic.py:371-380 | the chosen candidate is a candidate and none precedes it in the tuple order; nothing is chosen exactly when no ready operation names a known machine |
| JobShop.FlexibleJobShopAction | baselines/greedy_heuristic.py:360-387 | the loop's rows are those of a greedy run of at most 50 steps; a shorter run ends with no candidate left |
| JobShop.DispatchConserves | baselines/greedy_heuristic.py:380-384 | what was ready is, as a multiset, what was dispatched plus what is left: nothing is lost or dispatched twice |
| JobShop.LeftoverHasNoMachine | baselines/greedy_heuristic.py:370-379 | below the cap, every operation left over names no known machine |
| JobShop.StepRunsWhenItsMachineAllows | baselines/greedy_heuristic.py:364-385 | every dispatched operation runs on a machine it may use, from the end of the last earlier step there, or else from the latest of now, the availability and the end of the block, for the time its processing takes at the machine's speed or 1e-9 |
| JobShop.NothingFinishesEarlier | baselines/greedy_heuristic.py:371-380 | no operation still ready, on any known machine it may use, would have finished before the one dispatched |
| JobShop.FirstDifferenceDecides | baselines/greedy_heuristic.py:371-380 | ties go by job, operation index, machine and position, the first difference deciding |
| JobShop.FinishTimesNondecreasing | baselines/greedy_heuristic.py:370-385 | with non-negative processing times, finish times come out in nondecreasing order |
| JobShop.IntervalsDisjoint | baselines/greedy_heuristic.py:371-385 | two operations on one machine never overlap in time |
| JobShop.IntervalWellFormed | baselines/greedy_heuristic.py:364-385 | every operation starts no earlier than its machine's initial availability and ends no earlier than it starts |
| JobShop.SingleMachineOrderIsOptimal | baselines/greedy_heuristic.py:370-385 | with one machine, no selection of as many ready operations in any order has a smaller sum of finish times, at the cap of 50 as below it |
| JobShop.StartsNoLaterThanAverage | baselines/greedy_heuristic.py:371-385 | on identical machines, m times a starting instant is at most m times the common release plus the work dispatched before |
| JobShop.FinishBound | baselines/greedy_heuristic.py:366-387 | list-scheduling bound: an operation of length p ending at C has m*(C - a) <= S + (m - 1)*p |
| JobShop.LoadsCarryTheWork | baselines/greedy_heuristic.py:366-387 | any assignment's machine loads add up to the total work and each operation fits in its machine's load |
| JobShop.WithinTwiceOptimal | baselines/greedy_heuristic.py:366-387 | against any assignment of the same batch, every finish is within (2 - 1/m) times that assignment's makespan |
| FlowTime.StepFollowsStep | baselines/greedy_heuristic.py:370-385 | on m identical machines the k-th dispatched operation ends its own length after the (k - m)-th one ended, or after the release |
| FlowTime.LayersAreLeast | baselines/greedy_heuristic.py:366-387 | of all ways to put t lengths on at most m machines, counting the t shortest in layers of m gives the least total |
| FlowTime.ParallelOrderIsOptimal | baselines/greedy_heuristic.py:366-387 | on identical machines, no assignment and order of as many ready operations has a smaller sum of finish times, at the cap of 50 as below it |
| CausalFilter.NativeDropsLeastClosure | baselines/llm_agent.py:4403-4451 | the native filter drops exactly the least set of calls closed under depending on a discarded id or on an earlier dropped call |
| CausalFilter.NativeKeepsCausalSubsequence | baselines/llm_agent.py:4403-4451 | the kept calls are the others in order; each kept dependency is a prior id or the id of an earlier kept call, never a discarded one |
| CausalFilter.NativeIsItsReasons | baselines/llm_agent.py:4403-4451 | from the least closure of the discarded ids alone: exactly the other calls are kept, each with exactly the dependencies it may still rest on, and the two counters are the numbers of dropped calls and of kept calls that lost a dependency |
| CausalFilter.NativeLabelSaysWhy | baselines/llm_agent.py:4446-4451 | the label stays if no call is dropped; else it is the first kept call's name, or the dependency rejection |
| CausalFilter.ToolCosts | baselines/llm_agent.py:6534-6542 | the cost table has exactly the offered tool names, and no finite cost in it is negative |
| CausalFilter.CostsAreDeclared | baselines/llm_agent.py:6534-6542 | a tool costs v if and only if the last spec of its name declares v and v is not negative; otherwise its cost is infinite |
| CausalFilter.DeclaredCostsRespectCap | baselines/llm_agent.py:6534-6600 | over the whole filter, the declared costs of the kept calls sum to at most the cap plus 1e-9, each is of a tool that declares a usable cost, and they are no more than the call cap |
| CausalFilter.RepairRespectsBudget | baselines/llm_agent.py:6551-6600 | the kept calls respect the call cap and the cost cap plus 1e-9, and the amount spent is their total cost |
| CausalFilter.RepairAccountsForEveryCall | baselines/llm_agent.py:6555-6600 | every call is kept or counted under exactly one of four drop reasons |
| CausalFilter.RepairKeepsCausalSubsequence | baselines/llm_agent.py:6555-6603 | the kept repaired calls are the proposed ones in order without the dropped, and rest only on prior ids or earlier kept calls |
| CausalFilter.BudgetDropsNeverFit | baselines/llm_agent.py:6594-6600 | a call dropped for budget finds the call cap reached, or would cost more than the cap plus 1e-9 beside the final selection |
| CausalFilter.RepairDropsLeastClosure | baselines/llm_agent.py:6562-6582 | among well-formed calls of known tools, the dependency drops are the least closed set |
| CausalFilter.RepairIsClosureThenFirstFit | baselines/llm_agent.py:6555-6601 | the kept positions are those of two independent steps: take away the least closure of the discarded ids, then first fit under the two caps |
| CausalFilter.RepairIsItsReasons | baselines/llm_agent.py:6551-6603 | from that closure and first fit alone: the kept calls with exactly the dependencies they may still rest on, and each of the five counters as the number of calls with that reason |
| CausalFilter.RejectionSaysWhy | baselines/llm_agent.py:6523-6533 | an action with nothing kept is labelled by its reason: nothing proposed, a malformed call, a discarded dependency now or in an earlier pass, else the budget |
| CausalFilter.DropsAreClosedExactly | baselines/llm_agent.py:6583-6601 | all dropped calls together are closed under dependency if and only if every call that fits first names only earlier calls that fit first |
| CausalFilter.NothingIsErasedExactly | baselines/llm_agent.py:6583-6593 | with distinct ids, no kept call has a dependency on a call of the batch erased if and only if the same condition holds |
| CausalFilter.DownhillDropsAreClosed | baselines/llm_agent.py:6594-6601 | under every budget the condition holds when well-formed calls name only well-formed earlier calls that cost no more |
| CausalFilter.BudgetDropDoesNotPropagate | baselines/llm_agent.py:6583-6600 | concrete input: a dependant of a budget-dropped call is kept with the dependency cleared |
| CausalFilter.SecondPassKeepsAll | baselines/llm_agent.py:6507-6515 | a second pass over the kept calls reproduces them, spends the same and counts nothing |
| CausalFilter.RepairIsIdempotent | baselines/llm_agent.py:4789-4791 | filtering twice changes neither calls, dominant label nor counters, on every label path |
| CausalFilter.ResponseFilter.BoundNativeActionDependencies | baselines/llm_agent.py:4403-4451 | the loop returns the specified calls and label and adds the specified numbers of dropped and cleared calls |
| CausalFilter.ResponseFilter.SelectRepairCalls | baselines/llm_agent.py:6555-6603 | the loop returns the specified selection and rejection flags and adds its five counters |
| CausalFilter.ResponseFilter.BoundProtocolRepairAction | baselines/llm_agent.py:6517-6617 | the whole repair filter over the declared costs, with its early returns, rejection labels and the override of both caps |
| WorkingMemory.TrimIsUnique | baselines/llm_agent.py:3569-3639 | sizes and budget alone determine how many records each bucket keeps |
| WorkingMemory.TrimIsFair | baselines/llm_agent.py:3624-3637 | beyond the floors, a bucket that lost records is at most one turn behind any bucket and never behind a later one |
| WorkingMemory.FloorsInPriorityOrder | baselines/llm_agent.py:3612-3623 | each bucket's floor is up to four of what the earlier buckets' floors left |
| WorkingMemory.TrimWithinBudgetKeepsAll | baselines/llm_agent.py:3569-3639 | a memory within the budget is kept whole |
| WorkingMemory.TrimIsIdempotent | baselines/llm_agent.py:3569-3639 | trimming a trimmed memory changes nothing |
| WorkingMemory.TrimProtectsFirstBucket | baselines/llm_agent.py:3612-3623 | the four newest records of the first bucket survive any trim |
| WorkingMemory.StructuredMemory.Allocate | baselines/llm_agent.py:3603-3637 | both passes terminate with a fair allocation of exactly min(budget, total) |
| WorkingMemory.StructuredMemory.Trim | baselines/llm_agent.py:3569-3639 | every bucket keeps its newest records in order, as many as the allocation says |
| WorkingMemory.StructuredMemory.Upsert | baselines/llm_agent.py:3551-3567 | before the trim, the bucket holds its rows of other ids in order and then one row with the item's kind and body under its own id or the one it goes by, and no other bucket changes; if the trim keeps anything of the bucket, the new row is its last |
| WorkingMemory.NewRowIsLast | baselines/llm_agent.py:3551-3567 | the same for every upsert of every run |
| WorkingMemory.StructuredMemory.ResolveAlarm | baselines/llm_agent.py:3641-3646 | the alarms kept are those at the positions of other ids, in the same order; no other bucket changes |
| WorkingMemory.StructuredMemory.ResolveObligation | baselines/llm_agent.py:3648-3653 | the obligations kept are those at the positions of other ids, in the same order; no other bucket changes |
| WorkingMemory.UpsertKeepsIdsUnique | baselines/llm_agent.py:3551-3567 | ids stay unique through an upsert if and only if the stored id is the resolved one or is unused |
| WorkingMemory.OwnIdCausesDuplicates | baselines/llm_agent.py:3558-3559 | concrete input: an alarm with its own id is stored twice |
| WorkingMemory.ReachableWithinBudgetPlusTwo | baselines/llm_agent.py:3702-3950 | in every reachable state the trimmed buckets hold at most budget records and all buckets at most budget + 2 |
| WorkingMemory.CapAfterWrite | baselines/llm_agent.py:3569-3576 | one write keeps the documented hard cap if and only if it trims or removes, or the other buckets leave room |
| WorkingMemory.BudgetPlusTwoIsAttained | baselines/llm_agent.py:3747-3753 | for every budget some run -- distinct alarms up to the budget, then a fact and a commitment -- reaches a memory of budget + 2 records |
| WorkingMemory.NewestAlarmsSurvive | baselines/llm_agent.py:3612-3623 | the four newest alarms change only by a new alarm joining or a resolution removing one |
| WorkingMemory.ReachableIdsUnique | baselines/llm_agent.py:3551-3567 | over any run, ids stay unique in every bucket if no item's own id differs from its resolved id |
| ContextCompaction.CompactionIsFaithful | baselines/llm_agent.py:3287-3457 | in all four branches: old = system, compacted, tail; new = system, at most one surrogate, tail; count and hash describe exactly the compacted part; both budgets hold |
| ContextCompaction.CompactionTakesFirstThatFits | baselines/llm_agent.py:3287-3440 | how much is kept: the first that fits of the full record with the wanted tail, the full record with the latest message, minimal records with ever fewer ids, one with a short hash, the bare kind, and no record; it raises if none fits |
| ContextCompaction.CompactionFailsExactlyWhenEndsDoNotFit | baselines/llm_agent.py:3287-3457 | it raises if and only if system and latest message together exceed the character cap, and is a no-op if and only if both budgets already hold |
| ContextCompaction.AppendKeepsMissionAndLatest | baselines/llm_agent.py:3459-3470 | after each append the session opens with the mission and ends with the new message, within both budgets unless it raised; the ledger has strictly grown |
| ContextCompaction.ProjectionKeepsMissionAndLatest | baselines/llm_agent.py:5172-5206 | a round of the provider-cap projection keeps the mission and the refitted event within the smaller cap unless it raises; ledger and records only grow |
| ContextCompaction.ArrivalExactly | baselines/llm_agent.py:3459-3470 | an arriving message joins the carried ones, or the mission alone where the arm restarts, and the ledger; then both caps are enforced |
| ContextCompaction.ResponseExactly | baselines/llm_agent.py:4341-4374 | a response joins the ledger and changes neither the carried messages nor the records |
| ContextCompaction.ProjectionExactly | baselines/llm_agent.py:5172-5206 | a projection gives the latest of two or more messages its new text and enforces the smaller cap; the ledger keeps the old text |
| ContextCompaction.RollbackExactly | baselines/llm_agent.py:2403-2412 | a rolled-back turn leaves the messages and ledger it found, and its records unless it was a draft round |
| ContextCompaction.RunsAreSound | baselines/llm_agent.py:5116-5257 | in every reachable session, rolled-back turns included, the carried messages are distinct ledger rows, equal to them except for the texts a projection altered, and every record hashes messages carried at the time |
| ContextCompaction.RecordIsRecomputableExactly | baselines/llm_agent.py:3447-3457 | over every run, a recorded hash can be recomputed from the ledger if and only if no message it stands for was altered by a projection before it was made or taken off the ledger by a rollback |
| ContextCompaction.RefittedEventIsLost | baselines/llm_agent.py:5179-5200 | concrete run: an event refitted to a smaller cap and compacted later leaves a hash the ledger does not reproduce |
| ContextCompaction.RunsAreAuditable | baselines/llm_agent.py:3447-3457 | in runs whose projections change no text, every carried message is on the ledger and every recorded hash whose rows were not rolled back can be recomputed |
| ContextCompaction.LedgerOnlyGrowsExactly | baselines/llm_agent.py:2403-2412 | over every run, every earlier ledger is a prefix of every later one if and only if no rollback took a row off |
| ContextCompaction.LedgerOnlyGrows | baselines/llm_agent.py:3459-3470 | in particular this holds over every run without rollbacks |
| ContextCompaction.SupersededTurnLosesRecord | baselines/llm_agent.py:2403-2412 | concrete run without an altered text: after a superseded turn the ledger is shorter and the second record's hash cannot be recomputed |
| ContextCompaction.PersistentSession.CompactContext | baselines/llm_agent.py:3287-3457 | the method realises the specified outcome on messages, ledger and compaction records, and leaves all as it was when it raises |
| ContextCompaction.PersistentSession.FitSummary | baselines/llm_agent.py:3392-3428 | dropping memory ids one at a time, then truncating the hash, then the bare record, finds the first surrogate that fits |
| ContextCompaction.PersistentSession.AppendMessage | baselines/llm_agent.py:3459-3470 | session and ledger after the append are the specified ones |
| ContextCompaction.PersistentSession.ProjectLatest | baselines/llm_agent.py:5172-5206 | the latest text is replaced, also when the compaction to the smaller cap then fails; the ledger keeps the original |
| ContextCompaction.PersistentSession.DropHistory | baselines/llm_agent.py:5157-5160 | only the mission and the latest event stay carried |
| ContextCompaction.PersistentSession.RestoreSnapshot | baselines/llm_agent.py:2403-2412 | messages and ledger are those of the snapshot; the compaction records stay for a superseded turn and go back for a draft round |
| ContextCompaction.PersistentSession.RecordResponse | baselines/llm_agent.py:4341-4374 | a response is appended to the ledger and not carried |
| PlanLifecycle.ProposeKeepsValid | baselines/llm_agent.py:5629-5671 | a proposal under fresh keys keeps the balance of plans and the alias ownership |
| PlanLifecycle.BalanceAfterPropose | baselines/llm_agent.py:5629-5671 | without freshness, the balance survives a proposal if and only if no pending plan loses its last alias |
| PlanLifecycle.AliasesExactly | baselines/llm_agent.py:5664-5671 | a plan is entered under its call id and idempotency key, as far as it has them, or else under its own id and tick |
| PlanLifecycle.AcknowledgeAllKeepsValid | baselines/llm_agent.py:5687-5760 | ingestion keeps proposed = distinct pending + confirmed + rejected, and every resolved plan is active or one row of the log |
| PlanLifecycle.FeedbackDecides | baselines/llm_agent.py:5687-5760 | an observation settles exactly the plans its considered rows resolve: confirmed and rejected count those with and without ok, revisions the confirmed ones that replace a plan; logged are, in order, the rejected plans with their own error code and tick and the replaced active ones as superseded; no alias of a settled plan stays |
| PlanLifecycle.RunIsItsDecisions | baselines/llm_agent.py:5687-5760 | over every run, the active plan and the log are those decided in turns that stand, and the three counters count the decisions of all turns |
| PlanLifecycle.LoggedRowsAreNotActive | baselines/llm_agent.py:5743-5757 | no row of log or history is ever active, and the active plan always is |
| PlanLifecycle.ResolvesExactlyWhatItPointsAt | baselines/llm_agent.py:5706-5735 | a row resolves a plan if and only if that plan is pending with every key the row gives and, for a row with a plan id only, no other pending plan bears it |
| PlanLifecycle.ReachableIsSettled | baselines/llm_agent.py:5629-5774 | in every reachable state, rolled-back turns included, the confirmed and rejected plans exceed the balance by exactly the resolutions of undone turns, and the history is the last twelve rows of the log that stands |
| PlanLifecycle.BalanceHoldsExactly | baselines/llm_agent.py:5687-5760 | over every run, plans and logged rows balance if and only if no feedback resolved a plan inside a turn that was undone |
| PlanLifecycle.HistoryIsEverLoggedExactly | baselines/llm_agent.py:5763-5774 | over every run, the history is the last twelve rows of the log that stands, and that log is everything ever logged if and only if nothing was logged inside a turn that was undone |
| PlanLifecycle.DraftRoundUnbalances | baselines/llm_agent.py:2115-2167 | concrete run: a row seen in a draft round and again in the commit turn leaves one plan proposed and two confirmed |
| PlanLifecycle.ResolutionClearsEveryAlias | baselines/llm_agent.py:5736-5738 | no alias of a resolved plan stays pending and every other alias is untouched |
| PlanLifecycle.ActivePlanHasAnAcknowledgement | baselines/llm_agent.py:5727-5758 | the active plan changes only by a matching ok, non-pending row, and the plan it replaces is logged as superseded |
| PlanLifecycle.ReingestIsNoOpExactly | baselines/llm_agent.py:5687-5760 | ingesting an observation again changes nothing if and only if no key-less row then names a plan id borne by one pending plan; keyed rows never matter |
| PlanLifecycle.PlanIdAloneCanResolveLater | baselines/llm_agent.py:5717-5724 | concrete input: an ambiguous plan id resolves the remaining twin the second time |
| PlanLifecycle.TwinsAreReachable | baselines/llm_agent.py:5629-5671 | that state is reached by proposing two plans with one id |
| ResumeState.RoundTrip | baselines/llm_agent.py:2457-2546 | export then import restores the aliases, their plans, and which aliases share an object |
| ResumeState.GroupsAreAcceptedExactly | baselines/llm_agent.py:2479-2546 | groups are accepted if and only if each has an alias and no alias is empty or occurs twice |
| ResumeState.ReachableAliasesNonEmpty | baselines/llm_agent.py:5665-5671 | no reachable pending map has an empty alias, which the import would reject |
| ResumeState.RestoredAgentBehavesTheSame | baselines/llm_agent.py:5687-5774 | agents that agree up to object identity still agree after any further proposals and feedback |
| ResumeState.JournalIsTransparent | baselines/llm_agent.py:2457-2546 | an agent after any past, rolled-back turns included, exported, imported and driven on agrees with one that was never interrupted |
| ResumeState.PlanMemory.RestoreSnapshot | baselines/llm_agent.py:2403-2422 | pending plans, active plan and history are those of the snapshot, the counts of confirmed and rejected plans stay |
| ResumeState.PlanMemory.RecordPendingPlan | baselines/llm_agent.py:5629-5671 | one plan object is entered under each of its aliases |
| ResumeState.PlanMemory.FindPlan | baselines/llm_agent.py:5712-5724 | call id first, then idempotency key, then an unambiguous plan id |
| ResumeState.PlanMemory.ForgetAliases | baselines/llm_agent.py:5736-5738 | exactly the aliases of the one object are deleted |
| ResumeState.PlanMemory.ResolvePlan | baselines/llm_agent.py:5736-5758 | one settled plan: its aliases go, and active plan, log and counters move as one decision |
| ResumeState.PlanMemory.IngestPlanFeedback | baselines/llm_agent.py:5687-5760 | the row loop settles the specified decisions and cuts the history to twelve |
| ResumeState.PlanMemory.ExportPending | baselines/llm_agent.py:2463-2469 | each group lists, once, exactly the aliases of one plan object, and every alias is in a group |
| ResumeState.PlanMemory.ImportJournal | baselines/llm_agent.py:2479-2546 | a journal is accepted if and only if its binding, fields and aliases are valid; a rejected one leaves the agent unchanged |
| RealtimeCancellation.StepKeepsInv | baselines/llm_agent.py:2252-2353 | every step of worker and cancelers, a cancel seen in the rate limiter's sleep included, keeps the lock, turn, flag, stream, outcome and record invariants |
| RealtimeCancellation.ReachableInv | baselines/llm_agent.py:6619-6705 | so they hold after every interleaving |
| RealtimeCancellation.HeldLockIsReleased | baselines/llm_agent.py:2252-2353 | a held lock is never acquired again and is released by its holder's next step, which is enabled |
| RealtimeCancellation.EveryStreamIsClosed | baselines/llm_agent.py:6694-6705 | whenever the worker holds no stream, close has been called on every stream it ever registered, on every exit |
| RealtimeCancellation.RecordsAreFaithful | baselines/llm_agent.py:2298-2353 | the counts and sets kept beside the protocol say of any interleaving whether an outcome was recorded between the halves of the last reset, a recorded id was begun again, and a request was appended since |
| RealtimeCancellation.CounterMatchesOutcomes | baselines/llm_agent.py:2298-2305 | recorded turns had a stream whose close succeeded; the counter equals their number if and only if, in the interleaving, none was recorded between the two halves of the last reset |
| RealtimeCancellation.RecordedMeansNothingAppended | baselines/llm_agent.py:2332-2353 | a recorded pre-transport cancellation means no request was appended since the turn began, unless the id was begun again |
| RealtimeCancellation.AppendContradictsRecordExactlyOnReuse | baselines/llm_agent.py:2252-2260 | appending a request contradicts the record if and only if the turn id was begun again after being recorded |
| RealtimeCancellation.HistoryIsFaithful | baselines/llm_agent.py:2271-2296 | the history variables say of any interleaving whether a cancel was accepted and whether a flag read followed |
| RealtimeCancellation.NoLostCancellation | baselines/llm_agent.py:2271-2353 | a turn ends with the canceled error if and only if a cancel of it was accepted before one of its later flag reads |
| RealtimeCancellation.CancelReturnsWhatItClosed | baselines/llm_agent.py:2271-2296 | in every interleaving a cancel returns true if and only if it closed the stream and the close did not raise |
| RealtimeCancellation.OutcomesAreRecorded | baselines/llm_agent.py:2298-2305 | a turn has an outcome if and only if a worker or canceler recorded one since the fields were last cleared |
| RealtimeCancellation.WorkerCloseIsRecorded | baselines/llm_agent.py:6619-6705 | a stream the worker closes because of a cancel is on record before the worker does anything else |
| RealtimeCancellation.PretransportIsExact | baselines/llm_agent.py:2332-2353 | a turn is on record as canceled before its first request if and only if, since the fields were last cleared, a check that saw its cancel found neither a request nor a response appended since the turn began |
| RealtimeCancellation.ReusedTurnContradictsRecord | baselines/llm_agent.py:2252-2260 | concrete interleaving: a recorded turn id is begun again and sends a request |
| RealtimeCancellation.ReturnedTurnWithCanceledTransport | baselines/llm_agent.py:2285-2296 | concrete interleaving: a cancel accepted after the last read is recorded although the turn returns its action |
| RealtimeCancellation.LateRecordingDesynchronisesCounter | baselines/llm_agent.py:2298-2305 | concrete interleaving: the counter falls behind the outcomes across a reset |
| ProviderRetry.CallStaysWithinBudget | baselines/llm_agent.py:2882-2988 | one logical call appends at most max_attempts request records, fallbacks included, and starts no transport at or past the deadline |
| ProviderRetry.CallEndsExactly | baselines/llm_agent.py:2882-2988 | told by the clock alone, without the ledger: the attempts a call makes are exactly those that begin, each after a transient failure that left attempts, time for the backoff and no cancellation; transports, end and verdict are the fate of the last one |
| ProviderRetry.RetriedExactly | baselines/llm_agent.py:2957-2986 | a transient failure is followed by another attempt if and only if attempts are left, the backoff ends before the deadline and no cancel falls into it |
| ProviderRetry.SucceedsExactly | baselines/llm_agent.py:2882-2939 | a call succeeds if and only if some attempt that begins completes in time |
| ProviderRetry.DelayIsBackoff | baselines/llm_agent.py:2805-2818 | the waits are 5, 10, 20, 40 and then 60 seconds, or the server's own cooldown if that is longer |
| ProviderRetry.CallKeepsAuditPairedExactly | baselines/llm_agent.py:2940-2988 | from a paired ledger, a call leaves requests 1..n paired in order and all identities closed if and only if no no-tools fallback meets the deadline late; otherwise exactly one request stays open |
| ProviderRetry.AbortPolicyNeverMeetsLateFallback | baselines/llm_agent.py:6354-6357 | under the abort policy that path does not exist |
| ProviderRetry.ExchangeKeepsAuditPairedExactly | baselines/llm_agent.py:4658-4785 | with the protocol-repair call that may follow a decision, the ledger stays paired if and only if the decision call meets no late fallback |
| ProviderRetry.EpisodeStaysPaired | baselines/llm_agent.py:5533-5626 | any number of decision and repair calls that meet no late fallback, as under the abort policy, keeps the whole ledger paired |
| ProviderRetry.CallAfterLateFallback | baselines/llm_agent.py:2940-2955 | the next call leaves the open request open if canceled at once, answers it by accident if its own request is refused before it is recorded, and otherwise passes it over |
| ProviderRetry.PassedOverForever | baselines/llm_agent.py:2940-2955 | no later decision or repair call, on any path, answers a request that was passed over |
| ProviderRetry.LateFallbackIsNeverAnswered | baselines/llm_agent.py:2834-2865 | concrete script: the fallback's request stays unanswered with an open identity |
| ProviderRetry.FeasibleCountsStartsInsideBudget | baselines/llm_agent.py:82-104 | n attempts are feasible if and only if n is allowed and the n-th starts inside the budget: the formula is min(N, ceil(E/T)) |
| ProviderRetry.HungAttemptsAreFeasible | baselines/llm_agent.py:2867-2869 | when every attempt hangs for its clipped timeout, a call makes no more attempts than that formula |
| ProviderRetry.ProviderClient.RecordProviderRequest | baselines/llm_agent.py:4826-5062 | budget check, attempt count, request and open identity record, local refusals and second deadline check, in this order |
| ProviderRetry.ProviderClient.RecordActionResponse | baselines/llm_agent.py:5559-5626 | one response is appended for the sequence and its identity record closed |
| ProviderRetry.ProviderClient.InvokeDecisionProvider | baselines/llm_agent.py:6348-6380 | a tool-calling failure is answered and retried once without tools, unless the policy is abort |
| ProviderRetry.ProviderClient.Handle | baselines/llm_agent.py:2940-2986 | the blamed request is answered if it was not; a transient failure within budget and not canceled sleeps the backoff and goes round, any other ends the call |
| ProviderRetry.ProviderClient.CallWithTransientRetries | baselines/llm_agent.py:2882-2988 | the whole loop has the specified ledger, clock, attempts and verdict, which `CallEndsExactly` gives without it |
| CascadeBus.GlobMatchesBelowPrefix | core/cascade_bus.py:172-179 | a glob topic matches exactly the kinds below its prefix and its own literal spelling |
| CascadeBus.MatchesExactly | core/cascade_bus.py:114-125 | an event reaches the catch-all topic, its own kind, and every glob above it, and no other |
| CascadeBus.TargetsAreTheMatchingSubscriptions | core/cascade_bus.py:114-125 | an event goes to each subscription it reaches exactly once, in order, and to no other |
| CascadeBus.DeliveryIsExact | core/cascade_bus.py:114-140 | one delivery makes exactly those calls, counts those that raise, and keeps the first sixty-four error rows, each with its kind, topic and tick |
| CascadeBus.ErrorTrailIsBounded | core/cascade_bus.py:126-139 | in every run the error trail has at most sixty-four rows |
| CascadeBus.DeliveryAccounts | core/cascade_bus.py:114-140 | one delivery calls every matching handler once; successes plus new failures are their number |
| CascadeBus.FlushAccounts | core/cascade_bus.py:104-112 | a flush's successes plus new failures are the number of (event, matching handler) pairs, and events are delivered in order |
| CascadeBus.StepKeepsInStep | core/cascade_bus.py:88-112 | every operation keeps the batching bus, once flushed, equal to the immediate one, unless it subscribes to a waiting event |
| CascadeBus.BatchesAreTransparent | core/cascade_bus.py:88-140 | for any nesting of batches, flushing gives subscribers, history, counts, error trail and handler-call sequence of immediate delivery |
| CascadeBus.TransparentExactlyWhenSubscribedInTime | core/cascade_bus.py:88-112 | with all batches closed, handlers saw the immediate sequence if and only if none was subscribed to a waiting event |
| CascadeBus.LateSubscriberSeesThePast | core/cascade_bus.py:88-112 | concrete run: a handler subscribed inside a batch gets an event published before it |
| CascadeBus.DeliveredThenPendingIsHistory | core/cascade_bus.py:165-169 | delivered then pending events are the history, and a reset keeps this if and only if nothing is pending |
| CascadeBus.EventBus.PublishEvent | core/cascade_bus.py:92-98 | history grows by the event; inside a batch it is queued and nothing is called, otherwise exactly the matching handlers are |
| CascadeBus.EventBus.EndDeliveryBatch | core/cascade_bus.py:104-112 | it refuses when no batch is open, closes one level, and flushes in order at the outermost |
| CascadeBus.EventBus.DeliverEvent | core/cascade_bus.py:114-140 | the two loops call the matching handlers topic by topic, counting a failing one and going on |
| CascadeBus.EventBus.SubscribeTo | core/cascade_bus.py:88-90 | a known topic keeps its position and gets the handler last, a new topic goes last with this one handler, names stay distinct, and nothing else changes |
| CascadeBus.ReachableTopicsDistinct | core/cascade_bus.py:88-90 | in every run each topic has one position, so a handler is found under one topic per subscription |
| CascadeBus.EventBus.ResetBus | core/cascade_bus.py:165-169 | everything is cleared except batch depth and pending events |
| DifficultyContract.PassesExactly | core/difficulty_contract.py:306-536 | a level passes if and only if its configuration and behaviour floors hold and the exact or the bounded evidence route is complete; the exemption set says no more and no less |
| DifficultyContract.ConfigurationCounts | core/difficulty_contract.py:145-215 | the configuration features count the perturbations that are no storm windows, visible and hidden apart, their kinds, their ticks where no milestones are declared, and the distance of the farthest two |
| DifficultyContract.BehaviourCounts | core/difficulty_contract.py:217-303 | the behaviour features, each from the evidence it is read from |
| DifficultyContract.PassesDownward | core/difficulty_contract.py:50-107 | evidence that passes a level passes every lower level, exemptions notwithstanding |
| DifficultyContract.StaticStopsAtMedium | core/difficulty_contract.py:345-365 | static scheduling items never pass above medium |
| DifficultyContract.CalibratedIsTopOfInitialSegment | core/difficulty_contract.py:556-579 | a level passes if and only if it is at most the calibrated one |
| DifficultyContract.CertifiedExactly | core/difficulty_contract.py:35-47 | a calibration certifies a label if and only if it is declared, passes, and nothing above it passes |
| DifficultyContract.EvaluateContract | core/difficulty_contract.py:509-536 | the failure list is empty if and only if the level passes, and lists exactly the failed, non-exempt checks in order |
| DifficultyContract.CalibrateDifficultyLevel | core/difficulty_contract.py:540-580 | the loop's last passing level is the top of the passing levels |
| EvidenceJoin.CollectRequests | core/evidence.py:176-249 | the request table holds exactly the call ids whose rows form an accepted request, each with its tick and arguments |
| EvidenceJoin.AcceptedExactly | core/evidence.py:176-249 | the rows of a call make a request if and only if they succeeded, none came to nothing, and they are one row that waits or changed the state, or a waiting one and, at its due tick, one that changed the state with the same arguments |
| EvidenceJoin.FindFirstEffects | core/evidence.py:253-307 | the event loop keeps, per request, the first of the earliest qualifying effects |
| EvidenceJoin.ControlSummary | core/evidence.py:135-340 | the summary holds, for exactly the tools with accepted requests or with effects, exactly their request and effect ticks, the tools with an effect, and the distinct effect ticks |
| EvidenceJoin.EffectIsEarliestQualifying | core/evidence.py:253-307 | a record exists if and only if a realized event qualifies; its tick is attained, is the minimum, and is at least the request tick |
| EvidenceJoin.EffectIsEarliestRealization | core/evidence.py:253-307 | the same told by the event itself: engine report, agent caused, state changed, no failed status anywhere down the applied actions, tool and arguments as requested, tick no earlier than request and report |
| EvidenceJoin.EventOrderIsIrrelevant | core/evidence.py:253-307 | permuting the realized events changes neither which requests have an effect nor any effect tick |
| EvidenceJoin.EffectsAreOrderIndependentExactly | core/evidence.py:302-306 | the recorded effects, event ids included, are the same under every permutation of the events if and only if all earliest qualifying events of each request carry one id |
| EvidenceJoin.EventIdDependsOnOrder | core/evidence.py:302-306 | concrete input: two effects of one accepted call at one tick, whose recorded event id changes when they are swapped |
| EvidenceJoin.LifecycleOnlyNarrows | core/evidence.py:293-298 | lifecycle mode records a subset of the requests, each with an effect no earlier |
| EvidenceJoin.OneRecordPerCall | core/evidence.py:186-191 | two records of one call id are the same record |
| EvidenceJoin.SummaryIsOrderIndependent | core/evidence.py:135-340 | two item lists with the same rows per call id and the same realized events in any order have the same summary |
| Counterfactual.GroupMaskIsIdentityExactly | core/counterfactual.py:321-348 | a group mask leaves an untargeted action alone if and only if it has a first call named by its dominant label |
| Counterfactual.PoliciesMaskExactly | core/counterfactual.py:252-390 | what each of the five policies makes of an action, call by call and with its label |
| Counterfactual.GroupMaskIsItsCallsInTurnExactly | core/counterfactual.py:1275-1318 | for every group of calls with one name and argument signature, masking the group is masking its calls one at a time if and only if every action without a call of the group is labelled by its first call |
| Counterfactual.MaskInTurnIsExact | core/counterfactual.py:277-318 | masking calls one at a time, the last one first, removes exactly those calls and touches no other action |
| Counterfactual.GroupMaskDisturbsEarlierTick | core/counterfactual.py:321-348 | concrete trace: masking two repeated calls of tick 1 changes the fallback wait of tick 0 |
| Counterfactual.MaskingAllControlsKeepsInvestigations | core/counterfactual.py:364-390 | masking every state-changing call leaves exactly what the keep-investigations policy keeps |
| Counterfactual.ReplaysAgreeBeforeFirstChange | core/counterfactual.py:488-542 | the full masked and the full actual replay visit the same states until the first changed action has been given to the simulator |
| Counterfactual.ReplaysAgreeExactly | core/counterfactual.py:488-542 | for any masking function of action and tick, both full replays visit the same states up to step k in every simulator if and only if no action before k is changed |
| Counterfactual.SingleMaskAgreesBeforeItsTick | core/counterfactual.py:277-318 | the full replay with one call masked visits the actual states up to that call's own tick |
| Counterfactual.GroupMaskAgreesExactly | core/counterfactual.py:321-348 | the full group-masked replay visits the actual states before its first target in every simulator if and only if every earlier action is labelled by its first call |
| Counterfactual.ReplaySchedule | core/counterfactual.py:488-542 | the stepping loop computes the recursive replay: it ignores `done`, and stops at the step that raises |
| Counterfactual.CrashEndsTrace | core/counterfactual.py:519-529 | nothing after a raising step has any influence on the replay |
| Counterfactual.CompareBranches | core/counterfactual.py:755-862 | the two-pass method reports what the replays of the actual and the masked trace determine |
| Counterfactual.UnreachedMaskPreventsNothing | core/counterfactual.py:771-796 | a mask that changes no action the actual replay reaches, the raising one included, leaves the whole replay as it was and prevents nothing; the identity shortcut is the special case |
| Counterfactual.ApplicableMeansProven | core/counterfactual.py:805-862 | a report is applicable if and only if both full replays visit a state after every recorded action, the actual one ended or reached its horizon, and the two last states have equal usable cost declarations and a positive baseline; the costs are the totals at the two last states, the prevented loss their difference, and the reason says which of the two conditions failed |
| Counterfactual.NormalizedIsCalibrated | core/counterfactual.py:108-140 | the score is in [0, 1]; it is 1 if and only if applicable with non-positive own cost, 0 if and only if inapplicable or no better than waiting, and in between one minus the quotient of the costs |
| Counterfactual.UndeclaredCostsAreNonNegative | core/counterfactual.py:979-1010 | without signed components a usable cost is never negative |
| Counterfactual.UsableByComponent | core/counterfactual.py:989-1010 | costs are usable if and only if every component, declared or present, is admissible under its domain |
| Counterfactual.TotalAdds | core/counterfactual.py:979-986 | a component adds its amount to the total if it is a finite number, and nothing otherwise |
| Counterfactual.SumCosts | core/counterfactual.py:979-986 | the summing loop gives the total of the numeric components, and 0 for unusable ones |
| Counterfactual.TargetsAreStateChangingCalls | core/counterfactual.py:1055-1065 | the attribution loop visits exactly the state-changing calls, each once, in trace order |
| Counterfactual.AttributionIsExact | core/counterfactual.py:1164-1233 | a call has a marginal if and only if the trace without that one call runs to its end under the actual run's usable declarations; it is the total cost of that last state minus the actual run's |
| Counterfactual.AttributeCall | core/counterfactual.py:1164-1233 | one replay with one call removed yields what the call prevented, or the reason why there is no such amount |
| Counterfactual.AttributePerAction | core/counterfactual.py:1143-1251 | entries and failures partition the attempted calls, both in trace order; each entry holds what its call prevented, each failure its reason, and the cap keeps the first calls |

## Left out

- Provider SDK calls, HTTP, streaming chunk parsing, credentials, prompts, tool schemas and error-text classification: outcomes of a transport are an arbitrary script, and a stream is a number that can be closed.
- JSON text and sha256: `Encoding` holds arbitrary functions from records to text and digests, so nothing depends on their values.
- ContextCompaction.RecordIsRecomputableExactly: assumes, for its "only if", digests that never collide; that unaltered messages can be recomputed holds for every digest.
- Floating point: times, costs and amounts are exact reals; a non-finite cost is a separate constructor, and a sum of finite costs is finite.
- The wall clock: it is a real number the script advances; waits are part of the script.
- Turns without an id in `_begin_realtime_turn` and `_check_realtime_cancellation`, which take no lock and do nothing.
- How `_fit_persistent_event_memory` computes a refitted text, and the wire size that decides the smaller cap: text and cap of every projection round are arbitrary.
- Rolled-back turns in `WorkingMemory`: a rollback puts the memory back to an earlier state of the same run, so it adds no reachable state.
- The rest of a behavioural snapshot (`baselines/llm_agent.py:2376-2422`): tick and sequence numbers are inputs of a run, recent actions and the last provider outcome have no influence on what is proved.
- The statistics dictionary replaced by `import_resume_state`, and its string and list fields without influence on plans: only plan memory is modelled, the shape of the other fields is the flag `fieldsWellFormed`.
- Object identity of plan dictionaries is the serial number of a `PlanObject`; the model does not capture a caller that edits a pending plan in place.
- The dependency rejection log (`baselines/llm_agent.py:4453-4490`): rows for inspection that no filter reads.
- The entry and failure lists of repeated action groups (`core/counterfactual.py:1286-1381`): the same replay and accounting as per-call attribution; the groups and their masks are modelled.
- Counterfactual.CompareBranches: wall-budget aborts and back ends that opt out of counterfactual replay return fixed reports and are not modelled.
- Counterfactual.ReplaySchedule: a step that raises leaves the simulator state as it was before it, and both branches start from equal states, since the simulators are not part of this model.
- Counterfactual.AttributeCall: a replay whose construction raises is not distinguished from one whose schedule is unproven.
- EvidenceJoin.ControlSummary: endpoint ticks and the fields copied into lifecycle records are not modelled, only ticks, arguments and event ids.
- Evidence ids and dimension aggregation (`core/evidence.py:88-132`, `core/evidence.py:363-420`): a counter and a grouping without branching.
- DifficultyContract.EvaluateContract: the modes that leave behaviour or minimality pending are not modelled; calibration always requires both.
- CascadeBus.EventBus.DeliverEvent: handlers that publish, subscribe or reset during delivery are not modelled; whether a handler raises may depend on everything delivered before.
- The oracle, driving, CityLearn, random and wait-only baselines, the runners and the other core modules: case tables, thresholds and file handling that would add only easy members.
