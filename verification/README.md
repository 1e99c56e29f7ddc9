# Failure-handling protocols of the Coding Agent Reliability Lab, modelled and proved

The lab keeps an agent's external effects safe when acknowledgements are lost, processes crash, workers race and
events are replayed. Each of its protocols is short code over a few rows of a database; each makes a promise about
every run. This project models the protocols in Dafny and proves the promises for every run, interleaving, crash
point and input.

A table is a map, a transaction is one atomic step, and a raise is an error value that leaves the rows as they were.
The stores are classes whose methods update their fields as the transactions do; every method is proved equal to a
function of the old rows, and the theorems about runs are about those functions. Histories that no code reads (a
provider's commit log, a run's checkpoints in commit order, the tokens ever issued) are ghost state.

SHA-256 is a datatype constructor: a digest is known by its preimage. That is the one assumption made about it, and
`Common.Sha256` is the only place it is made.

| file | what it models |
|---|---|
| `Common.dfy` | options, results, digests, blank strings, the order check that several reducers share |
| `Reconciliation.dfy` | decisions from provider evidence; the versioned provider and its compare-and-apply write |
| `EvidenceLineage.dfy` | the durable evidence store: one head and one completion for an operation, safe against any caller |
| `ClosedSystem.dfy` | both stores, and everything ever read or decided, under any number of workers |
| `Competition.dfy` | N workers racing from one retry head |
| `TraceIntegrity.dfy` | the trace detector, one pass with its accumulators |
| `TraceDefects.dfy` | what each label means, as a relation of a record to the records before it; each is raised exactly then |
| `TraceClean.dfy` | what a clean trace is, over all pairs of records; the pass is exact |
| `TraceMutations.dfy` | which replacements of one record the detector notices, for every clean trace |
| `JsonPointer.dfy` | JSON pointers, what an edit where one points makes of a document, and its laws |
| `TraceDocuments.dfy` | the documents of typed traces, records edited by pointer, and the verdict on the edited document |
| `JsonDocument.dfy` | the mutation operator on mutable trees: deep copy, walk, edit in place |
| `Recovery.dfy` | checkpoint lineage and resumption |
| `Approvals.dfy` | replay of an approval history |
| `Durable.dfy` | the transactional sandbox with its crash points, and its simulation of the approval replay |
| `Fencing.dfy` | fencing tokens, pure and persistent |
| `Simulator.dfy` | naive and scoped replay of a turn's events |
| `Effects.dfy` | replay of effects with an idempotency ledger |

Where the code and its prose differ, the model follows the code:

- The module comment of `trace_integrity.py` and the trace schema speak of stable plan identity. The detector compares
  plans between checkpoints only, so the plan of a lone checkpoint can be changed unnoticed
  (`TraceMutations.LonePlanDriftsUnnoticed`); `TraceMutations.CheckpointIff` gives the exact condition.
- The trace schema says that a completion binds the latest matching evidence. The detector requires the latest revision
  *listed before it*; evidence listed after it may be newer (`TraceMutations.NewerEvidenceGoesUnnoticed`). It is the
  latest of all exactly when the evidence after it stays at its revision (`TraceMutations.CompletionIsLatestIff`).

## Model

| member | source | states |
|---|---|---|
| Reconciliation.DecisionsAreJustified | src/agent_reliability_lab/reconciliation.py:112-177 | a lost acknowledgement is accepted on exactly the confirming evidence and retried on exactly the revisioned, idempotency-bound absence; all other evidence fails closed; retry authority carries that revision and the operation's digest |
| Reconciliation.RefusalsAreExact | src/agent_reliability_lab/reconciliation.py:112-177 | which refusal each other evidence meets |
| Reconciliation.DecisionsCarry | src/agent_reliability_lab/reconciliation.py:137-177 | what acceptance and retry authority carry |
| Reconciliation.ConditionalRetryIsExact | src/agent_reliability_lab/reconciliation.py:180-217 | a retry commits exactly under authority for this effect at this revision and a free identity; otherwise which refusal it meets |
| Reconciliation.ReadingIsExact | src/agent_reliability_lab/reconciliation.py:281-310 | what each field of a reading says, and when it conflicts |
| Reconciliation.TouchedIsExact | src/agent_reliability_lab/reconciliation.py:253-264 | a snapshot adds at most the row of an unseen provider, at revision 0 |
| Reconciliation.InsertedIsExact | src/agent_reliability_lab/reconciliation.py:312-329 | a commit changes the row of its key and the revision of its provider, and nothing else |
| Reconciliation.EvidenceBindsOneEffect | src/agent_reliability_lab/reconciliation.py:112-177 | no evidence decides two different effects |
| Reconciliation.ScanRefinesLookup | src/agent_reliability_lab/reconciliation.py:180-217 | scanning a snapshot for the identity refuses for the same reason, or commits, as the keyed tables do; the returned state is a snapshot of the tables after the commit |
| Reconciliation.CommitKeepsLogged | src/agent_reliability_lab/reconciliation.py:312-329 | after a commit the revision still counts the commits, identities in the log stay distinct and the rows are the log |
| Reconciliation.KeyTakenIffLogged | src/agent_reliability_lab/reconciliation.py:233-237 | a key is free exactly when no committed operation has the identity |
| Reconciliation.VersionedProviderStore.SnapshotInTransaction | src/agent_reliability_lab/reconciliation.py:253-273 | lists every row of the provider exactly once, in the order of ids, at the revision, inserting only a missing revision row |
| Reconciliation.VersionedProviderStore.Snapshot | src/agent_reliability_lab/reconciliation.py:275-279 | a blank provider name is refused and changes nothing; otherwise the rows in the order of ids |
| Reconciliation.VersionedProviderStore.Read | src/agent_reliability_lab/reconciliation.py:281-310 | present, absent or conflicting exactly as the key is stored, at the current revision; a raise changes no row, and the rows stay the logged commits |
| Reconciliation.VersionedProviderStore.ConditionalApply | src/agent_reliability_lab/reconciliation.py:312-329 | a raise leaves rows and log as they were; success is the one keyed insert at the next revision, logged, and returns the ordered rows it read with the new operation at their end |
| EvidenceLineage.CallIsSafe | src/agent_reliability_lab/evidence_lineage.py:115-290 | one call with any evidence keeps the tables coherent and only extends their history |
| EvidenceLineage.StoreIsSafe | src/agent_reliability_lab/evidence_lineage.py:115-290 | over any calls, dishonest ones included: a changed head has a larger revision and the same effect, a completion never changes, a completed operation has an accepting head at least as new |
| EvidenceLineage.NoRetryAfterCompletion | src/agent_reliability_lab/evidence_lineage.py:292-309 | once an identity is completed no later history lets any retry of it through |
| EvidenceLineage.RecordIsExact | src/agent_reliability_lab/evidence_lineage.py:115-195 | evidence is recorded exactly if nothing stands against it and it is newer than the head or repeats it; a moved head bears its id, revision, digest and decision |
| EvidenceLineage.RecordRefusals | src/agent_reliability_lab/evidence_lineage.py:118-156 | the refusals for the evidence itself and for a completion |
| EvidenceLineage.RecordHeadRefusals | src/agent_reliability_lab/evidence_lineage.py:157-174 | the refusals for the head |
| EvidenceLineage.RecordedIsCurrent | src/agent_reliability_lab/evidence_lineage.py:175-195 | what was recorded is current authority under its own id and decision; a refusal changes nothing |
| EvidenceLineage.CurrentIsExact | src/agent_reliability_lab/evidence_lineage.py:197-228 | head, completion and current authority, or which refusal |
| EvidenceLineage.MarkIsExact | src/agent_reliability_lab/evidence_lineage.py:230-290 | an operation is completed exactly from its current acceptance, once, with the evidence of the head; otherwise which refusal |
| EvidenceLineage.ApplyRetryIsExact | src/agent_reliability_lab/evidence_lineage.py:292-309 | a retry goes through exactly when its authority is current in the store and at the provider and the identity is free, and then commits |
| EvidenceLineage.ReconciliationEvidenceStore.Record | src/agent_reliability_lab/evidence_lineage.py:115-195 | the head that is returned is the old one or bears exactly this evidence, and is current authority; the history is only extended |
| EvidenceLineage.ReconciliationEvidenceStore.Current | src/agent_reliability_lab/evidence_lineage.py:197-212 | the head, or why there is none for this exact effect; once completed it is an accepting head at least as new as the completion |
| EvidenceLineage.ReconciliationEvidenceStore.Completion | src/agent_reliability_lab/evidence_lineage.py:214-228 | the completion, none, or the conflict with another effect; what is reported as completed has an accepting head of the same effect |
| EvidenceLineage.ReconciliationEvidenceStore.MarkReconciled | src/agent_reliability_lab/evidence_lineage.py:230-290 | completes from the current accepting head only, idempotently; the history is only extended |
| EvidenceLineage.ReconciliationEvidenceStore.AssertCurrent | src/agent_reliability_lab/evidence_lineage.py:292-299 | authority is current exactly when it is the head's own evidence id and decision; no retry authority is, once completed |
| EvidenceLineage.ReconciliationEvidenceStore.ApplyRetry | src/agent_reliability_lab/evidence_lineage.py:301-309 | goes through exactly with authority that is current in the store and at the provider, and appends the operation at the next revision; refused whenever the operation is completed |
| ClosedSystem.StepKeepsTruth | src/agent_reliability_lab/reconciliation.py:281-329 | every step of any worker with any value ever issued keeps the multi-version invariant |
| ClosedSystem.StepsAreCalls | src/agent_reliability_lab/evidence_lineage.py:115-309 | a worker keeps what a call returned to it, the stores change as the call says, and nothing is withdrawn |
| ClosedSystem.MultiVersionTruth | src/agent_reliability_lab/reconciliation.py:281-329 | in every run, every reading, decision, head and completion at revision r is the truth about the first r commits |
| ClosedSystem.RunKeepsTruth | src/agent_reliability_lab/evidence_lineage.py:115-290 | the invariant holds along every run and commit logs only grow |
| ClosedSystem.AtMostOneEffect | src/agent_reliability_lab/reconciliation.py:205-217 | no identity is committed twice, and the exact effect of each completion is in the log |
| ClosedSystem.AbsenceIsNeverContradicted | src/agent_reliability_lab/reconciliation.py:205-212 | issued retry authority never meets "contradicts the absence readback", whatever it is presented for |
| ClosedSystem.SameRevisionNeverConflicts | src/agent_reliability_lab/evidence_lineage.py:166-174 | recording a real reading never meets the same-revision conflict |
| ClosedSystem.FreshReadingIsRecorded | src/agent_reliability_lab/evidence_lineage.py:133-195 | a fresh reading is recorded exactly when the head is not bound to another effect, with the decision that the provider's rows justify |
| ClosedSystem.ReadAndRecordSucceeds | src/agent_reliability_lab/evidence_lineage.py:133-195 | reading and recording succeeds exactly when neither store binds the identity to another effect |
| ClosedSystem.SoloConverges | src/agent_reliability_lab/evidence_lineage.py:235-290 | from every reachable state an undisturbed worker completes the operation with its effect committed exactly once, if and only if neither store binds the identity to another effect |
| ClosedSystem.StaleIffCommitSince | src/agent_reliability_lab/reconciliation.py:200-203 | retry authority is refused as stale exactly when a commit landed on the provider since its read, and commits otherwise |
| ClosedSystem.RefusalsCostCommits | src/agent_reliability_lab/reconciliation.py:312-329 | every refused attempt was paid for by somebody's commit |
| ClosedSystem.AttemptsAreBounded | src/agent_reliability_lab/reconciliation.py:193-217 | with K identities on the provider, a worker that re-reads after every refusal makes at most K - r attempts |
| Competition.RaceStartsFromAnyReachableRetry | tests/test_competing_reconcilers.py:29-45 | a race may start in every reachable state whose current head is retry authority at the provider's revision |
| Competition.TurnKeepsDecided | tests/test_competing_reconcilers.py:29-45 | after the commit no call of any worker raises, and each turn brings its worker one stage further |
| Competition.RunIsDecided | tests/test_competing_reconcilers.py:29-45 | nothing is decided before the first effective turn, everything after it; effective turns are counted by the workers' stages |
| Competition.RaceConverges | tests/test_competing_reconcilers.py:29-45 | in every interleaving exactly one write commits, no worker fails, all finished workers hold the one completion at r0 + 1, and all have finished after exactly 4 N effective turns |
| TraceClean.ValidateTrace | src/agent_reliability_lab/trace_integrity.py:102-324 | raises each label exactly when the trace has the defect that it names, and none exactly when the trace is clean: every record well formed, every pair of records in agreement, every effect and completion supported, sequences increasing, checkpoints one chain |
| TraceDefects.LabelIffDefect | src/agent_reliability_lab/trace_integrity.py:102-324 | for every label: it is raised exactly if some record stands in the relation to the records before it that the label names |
| TraceIntegrity.FingerprintIsInjective | src/agent_reliability_lab/trace_integrity.py:40-48 | a fingerprint is that of one provider, operation, tool and payload |
| TraceClean.BindingIsCommon | src/agent_reliability_lab/trace_integrity.py:186-202 | the binding set by the first approval or effect is that of all of them |
| TraceClean.EvidenceIsIndexed | src/agent_reliability_lab/trace_integrity.py:231-236 | the index holds the one evidence of each id |
| TraceClean.LastEvidenceDominates | src/agent_reliability_lab/trace_integrity.py:243-255 | comparing with the last evidence only makes revisions nondecreasing and same-revision observations equal over all of it |
| TraceClean.RecordFlagsIffFits | src/agent_reliability_lab/trace_integrity.py:138-281 | a record after a clean prefix has no label exactly when it is well formed, agrees with every earlier record and is supported by one |
| TraceClean.RecordsFlagsIffClean | src/agent_reliability_lab/trace_integrity.py:138-281 | on ordered records the pass finds nothing exactly when all pairs agree |
| TraceClean.OrderFlagsIffOrdered | src/agent_reliability_lab/trace_integrity.py:283-286 | the two order checks pass exactly when sequences strictly increase and record ids differ |
| TraceClean.LineageFlagsIffLinear | src/agent_reliability_lab/trace_integrity.py:288-322 | the adjacent checks pass exactly when the checkpoints are one chain 0..n of one plan with nondecreasing progress |
| TraceClean.ViolationsIffNotClean | src/agent_reliability_lab/trace_integrity.py:102-324 | the detector finds nothing if and only if the trace is clean |
| TraceMutations.ForeignRecordIsFlagged | evals/trace_integrity_v1/MUTATIONS.json:4-50 | a record of another run, turn, provider or operation is flagged in any trace |
| TraceMutations.EventIdIff | evals/trace_integrity_v1/MUTATIONS.json:20-27 | another event id goes unnoticed exactly when it is new |
| TraceMutations.SequenceIff | evals/trace_integrity_v1/MUTATIONS.json:28-35 | another sequence goes unnoticed exactly when it stays positive and between its neighbours |
| TraceMutations.RecordIdIff | src/agent_reliability_lab/trace_integrity.py:285-286 | another record id goes unnoticed exactly when it is new |
| TraceMutations.EffectIsDetermined | evals/trace_integrity_v1/MUTATIONS.json:44-59 | an effect can be replaced by no other effect, not even with its fingerprint recomputed |
| TraceMutations.ApprovedEffectIff | src/agent_reliability_lab/trace_integrity.py:186-215 | what an approval approves can be changed only with its fingerprint and only when nothing else in the trace bears the effect |
| TraceMutations.EventIff | src/agent_reliability_lab/trace_integrity.py:157-173 | a runtime event can be replaced by exactly the well-formed events with an id of their own |
| TraceMutations.ApprovalIff | src/agent_reliability_lab/trace_integrity.py:186-225 | an approval or denial can be replaced by exactly those that are well formed and agree with the records around it |
| TraceMutations.CompletionIsLatestIff | evals/trace_integrity_v1/TRACE_SCHEMA.json:14 | a completion is at the latest revision of a clean trace exactly when the evidence listed after it is at its revision |
| TraceMutations.NewerEvidenceGoesUnnoticed | src/agent_reliability_lab/trace_integrity.py:275-281 | a concrete trace with newer evidence after its completion, which is not found |
| TraceMutations.DenialIff | src/agent_reliability_lab/trace_integrity.py:204-225 | an approval becomes a denial unnoticed exactly when no effect follows |
| TraceMutations.CheckpointIff | evals/trace_integrity_v1/MUTATIONS.json:60-83 | which checkpoints may stand in place of another: parent and sequence never change, the plan only of a lone one, the id only of the last, progress only between the neighbours' |
| TraceMutations.LonePlanDriftsUnnoticed | src/agent_reliability_lab/trace_integrity.py:313-314 | a concrete trace in which plan drift is not found |
| TraceMutations.EvidenceIff | src/agent_reliability_lab/trace_integrity.py:227-281 | evidence that a completion names can be replaced by no other; any other evidence by exactly what is well formed and agrees with the records around it |
| TraceMutations.RevisionIff | evals/trace_integrity_v1/MUTATIONS.json:84-99 | the revisions that evidence may be moved to unnoticed; none once a completion names it |
| TraceMutations.EvidenceOfACompletionIsDetermined | src/agent_reliability_lab/trace_integrity.py:257-281 | evidence that a completion names can be replaced by no other evidence |
| TraceMutations.CompletionIff | evals/trace_integrity_v1/MUTATIONS.json:100-123 | a completion can only be changed to name other evidence at its own revision |
| TraceMutations.RemovedRecordIff | src/agent_reliability_lab/trace_integrity.py:102-324 | a record can be taken out unnoticed exactly when every later effect and completion rests on another one, and it is no checkpoint or the last one |
| TraceDocuments.ReplaceIsRecordReplaced | src/agent_reliability_lab/trace_integrity.py:68-99 | replacing one field of record i by its pointer in the document of a trace gives the document of the trace with that record replaced, if the record stays one of its kind |
| TraceDocuments.DocumentIsInjective | evals/trace_integrity_v1/TRACE_SCHEMA.json:17-83 | a document determines its scope and its records |
| TraceDocuments.EventIsNamed | evals/trace_integrity_v1/TRACE_SCHEMA.json:17-76 | the keys under which the document of a runtime event holds its fields |
| TraceDocuments.CheckpointIsNamed | evals/trace_integrity_v1/TRACE_SCHEMA.json:17-76 | the keys under which the document of a checkpoint holds its fields |
| TraceDocuments.BinderIsNamed | evals/trace_integrity_v1/TRACE_SCHEMA.json:17-76 | the keys under which the document of an approval or effect holds its fields |
| TraceDocuments.ObservationIsNamed | evals/trace_integrity_v1/TRACE_SCHEMA.json:17-76 | the keys under which the document of evidence or a completion holds its fields |
| TraceDocuments.AcceptedIff | src/agent_reliability_lab/trace_integrity.py:102-324 | the verdict on a document is the verdict on the trace it is made from |
| TraceDocuments.BodyFieldIff | src/agent_reliability_lab/trace_integrity.py:68-99 | after any field of a record's body in a clean document was replaced by pointer, the document is accepted exactly when the record may become what it then is, kind by kind |
| TraceDocuments.SequenceFieldIff | evals/trace_integrity_v1/MUTATIONS.json:28-35 | a document with a record renumbered by pointer is accepted exactly when the number stays positive and between its neighbours' |
| TraceDocuments.RecordIdFieldIff | src/agent_reliability_lab/trace_integrity.py:283-286 | a document with a record renamed by pointer is accepted exactly when the id is new |
| TraceDocuments.RemoveIsRecordRemoved | src/agent_reliability_lab/trace_integrity.py:86-94 | removing record i by its pointer gives the document of the trace without it |
| TraceDocuments.RemovedDocumentIff | src/agent_reliability_lab/trace_integrity.py:68-99 | that document is accepted exactly when the record's removal goes unnoticed |
| TraceDocuments.EffectFieldIsFlagged | evals/trace_integrity_v1/MUTATIONS.json:44-59 | no document in which a field of an effect of a clean document was replaced is accepted |
| TraceDocuments.CompletionFieldIff | evals/trace_integrity_v1/MUTATIONS.json:100-123 | a document in which a field of a completion of a clean document was replaced is accepted exactly when that field is the evidence id and it names other evidence listed before at its revision |
| JsonPointer.TokensReadBackIff | src/agent_reliability_lab/trace_integrity.py:51-56 | the escape of section 4 of RFC 6901 is read back for exactly the token lists other than `[]` and `[""]` |
| JsonPointer.RefusedPointers | src/agent_reliability_lab/trace_integrity.py:51-56 | a pointer is refused exactly if it is not absolute or points at no child |
| JsonPointer.FirstPairIsReplaced | src/agent_reliability_lab/trace_integrity.py:54 | the first escape of a text is replaced and the rest treated alike |
| JsonPointer.PlaceIsExact | src/agent_reliability_lab/trace_integrity.py:58-60 | which item a token names, and which refusal otherwise |
| JsonPointer.StepIsExact | src/agent_reliability_lab/trace_integrity.py:57-64 | a step down, and which refusal otherwise |
| JsonPointer.EditIsExact | src/agent_reliability_lab/trace_integrity.py:77-98 | which refusal an edit of a parent meets |
| JsonPointer.LookupFailsAtFirst | src/agent_reliability_lab/trace_integrity.py:57-65 | a walk fails as its first failing step |
| JsonPointer.EditedFails | src/agent_reliability_lab/trace_integrity.py:68-99 | an edit fails as the walk to the parent or as the edit of the parent |
| JsonDocument.DeepCopy | src/agent_reliability_lab/trace_integrity.py:71 | the copy is a fresh tree, without sharing, that holds the document |
| JsonDocument.PointerParent | src/agent_reliability_lab/trace_integrity.py:51-65 | the walk over the mutable tree finds the cell above the last token, or the first error on the way |
| JsonDocument.EditInPlace | src/agent_reliability_lab/trace_integrity.py:77-98 | one assignment to the parent makes it hold the edited node, or an error leaves it as it was |
| JsonDocument.GraftStands | src/agent_reliability_lab/trace_integrity.py:68-99 | after one cell was assigned to, the whole tree holds the old document with that subtree put where the path points |
| JsonDocument.ApplyMutation | src/agent_reliability_lab/trace_integrity.py:68-99 | editing the copy in place yields, or fails with, exactly what the edit of the document value is |
| JsonPointer.ReadAfterReplace | src/agent_reliability_lab/trace_integrity.py:77-85 | a replaced path, and every path below it, reads the new value |
| JsonPointer.ReplaceElsewhere | src/agent_reliability_lab/trace_integrity.py:77-85 | every path that parts from the replaced one reads what it read before, errors included |
| JsonPointer.CanonicalPathsPart | src/agent_reliability_lab/trace_integrity.py:57-64 | with canonical indices, paths neither above nor below each other part |
| JsonPointer.ReplaceIsUndone | src/agent_reliability_lab/trace_integrity.py:77-85 | putting the old value back restores the document |
| JsonPointer.ReadAfterRemove | src/agent_reliability_lab/trace_integrity.py:86-94 | a removal succeeds exactly where there was a value; exactly that member is gone, or the later items moved down by one |
| Recovery.ChainsAreLinear | src/agent_reliability_lab/recovery.py:136-255 | in every reachable store each run is one chain 0..n ending in its head with sequence <= completed <= operations, and no uniqueness constraint, missing head or plan-binding error is ever met |
| Recovery.AdvanceKeepsLineage | src/agent_reliability_lab/recovery.py:188-255 | an advance replays the head or appends to the chain of its run |
| Recovery.AdvanceIsExact | src/agent_reliability_lab/recovery.py:188-255 | an advance succeeds exactly as a repetition of the last, or from the head with a new id and more progress within the plan; what it answers |
| Recovery.AdvanceRefusals | src/agent_reliability_lab/recovery.py:188-245 | which refusal each other advance meets |
| Recovery.PlanIsExact | src/agent_reliability_lab/recovery.py:92-107 | a plan is accepted exactly if it has operations and no id twice |
| Recovery.StartIsExact | src/agent_reliability_lab/recovery.py:136-173 | a start succeeds exactly for a new run or as a repetition of its first; what it answers and stores, otherwise which refusal |
| Recovery.ResumeRefusals | src/agent_reliability_lab/recovery.py:257-281 | which refusal a resume meets |
| Recovery.ConstraintsAreExact | src/agent_reliability_lab/recovery.py:68-74 | what the constraints of the table and the checks that no run reaches would refuse |
| Recovery.AdvancesAreBounded | src/agent_reliability_lab/recovery.py:188-255 | a run is advanced at most as often as its plan has operations |
| Recovery.ResumeConservesThePlan | src/agent_reliability_lab/recovery.py:257-281 | resuming succeeds exactly for the head and the bound plan, and completes the slices of the chain to the plan |
| Recovery.ResumesShrink | src/agent_reliability_lab/recovery.py:257-281 | a later resume of a run returns a suffix of every earlier one |
| Recovery.CheckpointStore.Start | src/agent_reliability_lab/recovery.py:136-173 | a new chain, a replay of its root, or the error with nothing changed |
| Recovery.CheckpointStore.Current | src/agent_reliability_lab/recovery.py:175-186 | the last checkpoint of the run's chain; unknown runs are the only error |
| Recovery.CheckpointStore.Advance | src/agent_reliability_lab/recovery.py:188-255 | succeeds exactly as a repetition of the last advance or if it moves the head on; what it returns is then the head; lineage is kept |
| Recovery.CheckpointStore.Resume | src/agent_reliability_lab/recovery.py:257-281 | succeeds exactly for the last checkpoint of the run's chain with the bound plan, and completes the slices of the chain to that plan |
| Approvals.ReplayApproval | src/agent_reliability_lab/approvals.py:54-125 | the three lists, each operation once, or the error of the first failing event |
| Approvals.ReplayIffLawful | src/agent_reliability_lab/approvals.py:71-119 | the replay succeeds exactly on the lawful histories, and its ledger then says exactly what happened |
| Approvals.ResultSaysWhatHappened | src/agent_reliability_lab/approvals.py:113-125 | the returned tuples list, each once, exactly the executed, approved and denied operations; what was executed was approved, nothing is both approved and denied |
| Approvals.ResultIsInOrder | src/agent_reliability_lab/approvals.py:71-125 | each tuple is in the order of first executions or decisions |
| Approvals.RefusalsAreExact | src/agent_reliability_lab/approvals.py:71-111 | which refusal an event meets after a replayed history |
| Approvals.FailureIsFinal | src/agent_reliability_lab/approvals.py:71-119 | the first failing event decides the error |
| Durable.SandboxIsCrashSafe | src/agent_reliability_lab/durable.py:88-137 | over any calls and crashes: completed exactly when the bound payload is noted, after an approval; bindings, decisions and notes never change; at most one execution reports a new effect |
| Durable.NoteInsertNeverFails | src/agent_reliability_lab/durable.py:127-130 | the insert of a note never meets its primary key |
| Durable.RetryCompletes | src/agent_reliability_lab/durable.py:109-137 | after any crashes one more execution of an approved operation completes it |
| Durable.RequestIsExact | src/agent_reliability_lab/durable.py:88-95 | a request binds a new operation or repeats its binding; otherwise which refusal |
| Durable.DecideIsExact | src/agent_reliability_lab/durable.py:97-107 | a decision is recorded exactly if none stands against it; otherwise which refusal |
| Durable.ExecuteChanges | src/agent_reliability_lab/durable.py:109-137 | a due operation is noted and completed exactly if the process lives up to the commit; otherwise nothing changes |
| Durable.ExecuteAnswers | src/agent_reliability_lab/durable.py:109-137 | it is reported as new exactly if the process lives on, and every other answer has its one cause |
| Durable.NoteKeyIsExact | src/agent_reliability_lab/durable.py:127-130 | what the primary key of the notes would refuse |
| Durable.SandboxSimulatesReplay | src/agent_reliability_lab/durable.py:76-137 | the incremental store and the batch replay fail at the same event with corresponding errors, or agree on bindings, decisions, executions and notes |
| Durable.SandboxAcceptsLawfulHistories | src/agent_reliability_lab/approvals.py:54-125 | store calls succeed exactly on lawful histories; then the noted operations and the stored decisions are those that the replay returns |
| Durable.DurableSandbox.Request | src/agent_reliability_lab/durable.py:88-95 | binds a new operation, accepts an exact repeat, refuses anything else |
| Durable.DurableSandbox.Decide | src/agent_reliability_lab/durable.py:97-107 | records a decision once and never reverses it |
| Durable.DurableSandbox.Execute | src/agent_reliability_lab/durable.py:109-137 | note and completion appear together or not at all, at whichever of the four points the process is killed |
| Durable.DurableSandbox.Notes | src/agent_reliability_lab/durable.py:139-143 | every note once, in the order of ids |
| Fencing.AcquireRefines | src/agent_reliability_lab/fencing.py:119-149 | acquiring is the pure model on the resource's row, stamped with the generation; other resources are untouched |
| Fencing.WriteRefines | src/agent_reliability_lab/fencing.py:151-183 | writing is the pure model on the resource's row, down to the error, but for a resource never acquired |
| Fencing.AuthorityIsExact | src/agent_reliability_lab/fencing.py:53-60 | authority is the next epoch, held by the operation, with the value kept |
| Fencing.WriteIsExact | src/agent_reliability_lab/fencing.py:63-74 | a write needs the exact authority and changes the value only; otherwise which refusal |
| Fencing.WrittenIsRead | src/agent_reliability_lab/fencing.py:151-195 | what an accepted write wrote is read |
| Fencing.StoreRefusals | src/agent_reliability_lab/fencing.py:119-183 | which refusals the store meets |
| Fencing.AcceptedIsNewest | src/agent_reliability_lab/fencing.py:151-183 | in every run, store replacements included, a write is accepted if and only if its token is the newest issued for the resource in the current generation |
| Fencing.SupersededIsRefused | docs/FENCING_TOKENS.md:5 | an older token is refused for good, and accepted epochs never fall |
| Fencing.RunIsFenced | src/agent_reliability_lab/fencing.py:119-183 | rows are the newest tokens, issued epochs strictly grow |
| Fencing.PersistentFencingStore.constructor | src/agent_reliability_lab/fencing.py:85-117 | opening keeps the generation of the file, or gives it one |
| Fencing.PersistentFencingStore.Acquire | src/agent_reliability_lab/fencing.py:119-149 | the pure model on the row of the resource: the next epoch with the stored value kept; refusals change nothing, and no other resource changes |
| Fencing.PersistentFencingStore.Write | src/agent_reliability_lab/fencing.py:151-183 | the pure model on the row of the resource; refusals change nothing, and no other resource changes |
| Simulator.Replay | src/agent_reliability_lab/simulator.py:79-102 | the order check, then the fold of the events or the error of the first failing one |
| Simulator.ScopedIsNaiveOnOwnTurn | src/agent_reliability_lab/simulator.py:35-76 | scoped replay succeeds exactly when the turn's own events are outputs, then possibly one terminal event and copies of it; its state is naive replay of them up to the terminal one |
| Simulator.ForeignEventsDoNotInterfere | src/agent_reliability_lab/simulator.py:35-36 | streams with the same own events give the same turn state |
| Simulator.ScopedAcceptsOwnTurn | src/agent_reliability_lab/simulator.py:50-76 | the accepted sequences are the own events up to the terminal one, in order |
| Simulator.NaiveReports | src/agent_reliability_lab/simulator.py:50-76 | the last event with an output gives it, any failure fails the turn, the last terminal event is kept |
| Simulator.ScopedReports | src/agent_reliability_lab/simulator.py:39-76 | the same for scoped replay, of the own events up to the first terminal one |
| Simulator.ScopedIgnores | src/agent_reliability_lab/simulator.py:39-54 | the ignored sequences are the foreign events and the repetitions of the terminal one, in order |
| Simulator.OnlyConflictsRefuse | src/agent_reliability_lab/simulator.py:39-47 | only an incompatible terminal outcome refuses a replay |
| Simulator.EventsArePartitioned | src/agent_reliability_lab/simulator.py:39-76 | every event is accepted or ignored, once |
| Effects.ReplayEffects | src/agent_reliability_lab/effects.py:40-82 | on ordered input the ledger replay succeeds exactly if no operation id is reused for another effect; the first requests are applied in order and the others suppressed |
| Effects.OccurrencesPartition | src/agent_reliability_lab/effects.py:55-82 | applied and suppressed requests partition the input, and every operation is applied exactly once |
| Effects.OccurrencesAreExact | src/agent_reliability_lab/effects.py:55-82 | applied is what comes first of its operation, suppressed what repeats one |
| Effects.ReplayIsIdempotent | src/agent_reliability_lab/effects.py:55-82 | replaying what was applied applies it again with nothing suppressed |
| Common.CardinalityIffDistinct | src/agent_reliability_lab/effects.py:32-37 | comparing the length with that of the set says that nothing occurs twice |
| Common.InOrderIffStrictlyIncreasing | src/agent_reliability_lab/approvals.py:46-51 | the order check says that sequences strictly increase |

## Left out

- SQLite itself: connections, pragmas, locking, schema versions and file paths. Each transaction is one atomic step, and a store handle is the object holding the rows.
- The sorting of the detector's labels: they are a set.
- SHA-256 internals and canonical JSON: digests are injective by construction, and plans are compared by value.
- The hexadecimal check of digests: `NotHex` stands for all text it refuses.
- Field validation of the frozen dataclasses (blank names, nonnegative numbers): the theorems hold with or without it. `Durable.LocalOperation.Supported` is the one that a method requires, since the sandbox is only ever given constructed operations.
- Fencing.WriteRefines: requires a positive epoch, which the constructor of a token enforces; with epoch 0 a never acquired resource would fail on the operation instead.
- Unsupported readback states and reducer or replay modes: the enumerations here are closed, so the raises for other strings have no counterpart.
- Python type confusion and missing keys in traces: records are typed. The labels for a missing scope, missing records and a record that is not a mapping, and conditions that only mistyped values meet, are not modelled; an absent parent checkpoint is `None`.
- Sharing inside one document: the document that is copied is a value, so a list or object that it refers to twice is copied twice.
- JsonDocument.PointerParent: reads list indices as decimals with an optional sign, negative ones included; a token with whitespace, underscores or non-ASCII digits, which `int` also takes, is refused as ValueError.
- JsonDocument.EditInPlace: reads the last token of a list in the same way.
- JsonDocument.ApplyMutation: inherits both.
- TraceDocuments.ReplaceIsRecordReplaced: is about documents of typed traces and replacements that keep the record one of its kind. A value of another type, another kind, and the fields that the detector never reads (`trace_id`, `idempotency_key`) have no typed counterpart. The text of a digest is an injective parameter.
- `evaluate_trace_corpus`, `evaluation.py`, and everything else under `evals/`: fixed inputs, counting and file checks.
- Processes, barriers, timeouts and `os._exit`: only their effect as interleavings and crash points is modelled.
- Restoring an old database file with the same fencing generation, which docs/FENCING_TOKENS.md excludes.
- Error message texts: an error constructor stands for one raising branch.
