# Verification model of the NanoLoop agent and analysis core

NanoLoop is a workbench for SEM nano-particle images. An agent plans tool calls under human approval, an
analysis pipeline turns segmentation output into measurements, and a query layer answers questions about them.
This project models the parts of it whose correctness is hardest to see from the code and proves what they
promise, for every input and every run. `dafny verify dfyconfig.toml` checks all of it.

## What is modelled

- **Agent control plane** (`AgentContracts`, `AgentTransactions`, `AgentMachine`, `AgentInvariant`, `AgentSafety`,
  `AgentEvidence`, `AgentScheduling`, `AgentControl`, `AgentResume`). A task is a committed record. Its action column
  knows the difference between SQL NULL and the JSON text null that clearing an action leaves behind. Each database
  transaction is a function on that record; the class `AgentTask` performs the same transaction by updating a loaded
  row in place and is proved equal to it. The machine's moves are one transaction, entering a tool, its return, one
  crash, one user action or the passing of time. Entering a tool is recorded as an invocation whether or not the tool
  ever returns. The model, the tools, the users, the scheduler and the crashes are arbitrary. A crash, and any error
  that is not handled, keeps the committed record and loses everything else. It can strike at any step.
  `AgentControlService` holds the service's own methods; each one extends a ghost run of the machine, so every theorem
  about runs is a theorem about the service.
- **Per-task lock** (`TaskLocks`). Threads interleave the critical sections of entering, acquiring, being
  interrupted, releasing and leaving in any order.
- **Two-object promotion** (`SnapshotPromotion`). A disk whose n-th operation may fail, including those of the rollback.
- **Instance normalization** (`Pixels`, `KeyedSort`, `GreedySuppression`, `Postprocessing`, `PostprocessingLaws`,
  `SemanticSegments`, `InstanceLaws`). Masks are finite pixel sets. Hole filling is defined by reachability from the
  image edge. The content digest is an injective function, confidences are reals.
- **Material identities** (`Components`, `MaterialContexts`, `MaterialPartition`, `MaterialNames`, `MaterialOrders`,
  `MaterialWitness`). Which characters are white space, and case folding, are parameters; stripping, separator
  removal, merging and the loop over rows are modelled as written.
- **Distribution statistics** (`Statistics`), over exact reals, in the list form and in the SQL form.
- **Context budgets** (`Json`, `JsonReader`, `ContextBudget`). Compact JSON is modelled character by character.
- **Run-length artifact** (`RunLength`, `InstanceArtifacts`).
- **Analysis run** (`RegionOfInterest`, `AnalysisRun`, `ReportLaws`). From the request and the adapter's output to the
  published mask, artifact, quality report and measurements.
- **Conversation history** (`BoundedHistory`).

## Promises that hold only under a condition

- A failing task is logged with TASK_FAILED, except exactly when a FINISH with unavailable evidence exhausts the failure
  budget: `AgentSafety.FailureIsLogged` gives the condition, `AgentSafety.SilentFailure` a run.
- FINISH completes a task if and only if the newest recorded results offer evidence and all that is cited is among it:
  `AgentEvidence.FinishCompletes`.
- The resume scheduler is meant for due continuations and for interrupted or approved actions. No due action is lost,
  but a task without an action is selected too, exactly when it is RUNNING and an earlier action of it was cleared:
  `AgentScheduling.ResumeCoverage`. `AgentScheduling.IdleTaskPicked` is a run that rests idle after the one step its call
  may take and is picked up for the next step without any user's doing.
- A task selected for resumption is skipped if and only if a row is missing or the task had ended before its turn came,
  which takes another call in between: `AgentResume.ResumeReadyTasks`, `AgentResume.TurnsOfReady`.
- A merge of two material contexts keeps both identities if and only if at most 32 values besides the merged formula and
  name are needed: `MaterialContexts.MergeIdentity`. A job gives exactly the materials its rows are about in every order
  of the rows if and only if each material has at most 33 values, or 34 of which none can become both formula and name of
  a context - because one row gives it as both, or one row gives it alone and another in the other field:
  `MaterialOrders.ExactConditionForAllOrders`. `MaterialWitness.OrderMatters` is a job that keeps its material of 34
  values in one order of its rows and loses it in another. Cut or not, no context ever mixes two materials:
  `MaterialPartition.JobInsideComponents`.
- A bounded context fits its budget if and only if the budget has room for the smallest fallback or nothing had to be cut:
  `ContextBudget.NewestFits`, `BoundedFormFits`, `TextsFit`.
- A promotion that is rolled back leaves the disk as before, except when an old manifest existed, every rename succeeded
  and a directory sync then failed: the staged manifest is then gone. `SnapshotPromotion.PromoteSnapshot` states this as
  the exact content of the disk. A rollback is complete if and only if none of its own operations fails, so a single
  fault never requires recovery when both staged objects exist.

## Model

| member | source | states |
|---|---|---|
| `AgentSafety.ApprovalSafety` | app/agent/control.py:664-710 | every invocation of a tool that requires approval, even one that a crash cut off, was made when the committed record held an APPROVED approval of the same action id, tool and arguments |
| `AgentSafety.GrantedByUser` | app/agent/control.py:415-483 | an approval is APPROVED only through the user's own resolution of it, earlier in the run, while it was pending and awaited |
| `AgentSafety.RejectedNeverRuns` | app/agent/control.py:467-482 | an action whose approval was rejected never enters a tool, before the rejection or after any further moves |
| `AgentSafety.OneOpenApproval` | app/agent/control.py:685-709 | while an approval is awaited it is the only open one and names the pending action; outside that state a live task has no open approval |
| `AgentSafety.AtMostOnce` | app/agent/control.py:730-795 | an action id enters the tools twice only if its tool is idempotent, and then with the same tool and arguments; invocations cut off by a crash count |
| `AgentSafety.InterruptedNeverReplays` | app/agent/control.py:735-778 | after a started non-idempotent action was lost, no tool is entered again for the task; the record is unchanged until it ends FAILED or CANCELLED |
| `AgentSafety.InterruptedFails` | app/agent/control.py:735-778 | the first attempt to execute such an action fails the task and clears the action |
| `AgentSafety.BoundedWork` | app/agent/control.py:530-538 | in its whole life a task commits at most max_steps + max_failures + 1 decision outcomes; steps and failures stay inside their budgets |
| `AgentSafety.OneShotsBounded` | app/agent/control.py:735-813 | a task enters tools that are neither idempotent nor automatically polled at most once per model step, so at most max_steps times in its whole life |
| `AgentSafety.MeasureStep` | app/agent/control.py:588-596 | steps left + failures left + [not terminal] never grows and strictly falls with every decision outcome |
| `AgentSafety.PollingIsFree` | app/agent/control.py:888-918 | executing, finishing and re-polling actions consume no model step |
| `AgentSafety.FollowUpIsArmed` | app/agent/control.py:888-918 | an accepted follow-up waits for exactly the requested delay; an unacceptable one commits nothing |
| `AgentSafety.PollDelayRespected` | app/agent/control.py:339-346 | until the clock reaches the wakeup time no tool is entered and no decision made for the task, which changes only by cancellation or revocation |
| `AgentSafety.TerminalAbsorbs` | app/agent/control.py:329-338 | a completed, failed or cancelled task is never changed again and never enters a tool again |
| `AgentSafety.EvidenceProvenance` | app/agent/control.py:1245-1260 | a COMPLETED task had evidence available, and each final reference was returned by a call of the same action and still lies in the observation window |
| `AgentEvidence.ResultIsStored` | app/agent/control.py:843-851 | a recorded result keeps the outcome, the retry flag and all evidence of what the tool returned, under its own action |
| `AgentEvidence.AvailableIsReturned` | app/agent/control.py:1245-1260 | the evidence a task offers is exactly the non-empty references that tools returned in the newest max_observations recorded results |
| `AgentEvidence.FinishCompletes` | app/agent/control.py:615-637 | a FINISH within the step budget completes the task, with exactly the cited references, if and only if some evidence is offered and all that is cited is |
| `AgentEvidence.ToolOutcomes` | app/agent/control.py:808-862 | an observation is taken as returned; an exception counts as one failure without evidence and ends the task exactly when it cannot be retried or the failures are used up |
| `AgentEvidence.InputsAreNewest` | app/agent/control.py:370-405 | the record keeps the newest eight of all inputs ever submitted, in order |
| `AgentSafety.EventLog` | app/agent/control.py:1135-1151 | event numbers are exactly 1..n in every reachable state and later states only append |
| `AgentSafety.FailureIsLogged` | app/agent/control.py:615-637 | a failing task ends its log with TASK_FAILED if and only if the failing move is not a FINISH with unavailable evidence |
| `AgentSafety.SilentFailure` | app/agent/control.py:615-622 | a concrete two-move run that reaches FAILED with no TASK_FAILED event |
| `AgentScheduling.ResumeCoverage` | app/agent/control.py:151-167 | a task with an action is selected exactly when the action is due and awaits no approval; one without an action exactly when it is RUNNING and an earlier action was cleared |
| `AgentScheduling.WrittenMeansHeld` | app/db/models.py:806 | the action column is not SQL NULL exactly when an action is or was pending at some point of the run |
| `AgentScheduling.IdleTaskPicked` | app/agent/control.py:359-366 | a concrete run that rests idle with its call's steps used up, is selected, and asks the model again |
| `AgentScheduling.ResumeExecutes` | app/agent/control.py:339-358 | running a selected task with an action starts it and then enters its tool, or fails it when it is an interrupted non-idempotent one |
| `AgentScheduling.ResumePlans` | app/agent/control.py:359-366 | running a selected task without an action goes straight to the planning loop |
| `AgentSafety.Reached` | app/agent/control.py:315-368 | the invariant on status, pending action, approvals, invocations, returns, budgets, evidence and events holds after every run of moves |
| `AgentInvariant.MoveKeeps` | app/agent/control.py:712-886 | every single move - decision, tool result, crash, approval, input, cancellation, revocation - keeps the invariant |
| `AgentSafety.ApprovalsStep` | app/agent/control.py:433-443 | a move never rewrites an approval's identity; its status changes only from PENDING and only by the resolution that names it |
| `AgentSafety.ApprovalsPersist` | app/agent/control.py:433-443 | over any run approvals keep their identity and a resolved one never changes again |
| `AgentSafety.TraceStep` | app/agent/control.py:780-813 | the traces grow by one entry at a time: an invocation when a committed, started action enters its tool, a return when that invocation comes back |
| `AgentSafety.StartedBeforeInvoked` | app/agent/control.py:780-813 | every invocation was made when the committed record already carried its action, tool and arguments with the started flag |
| `AgentSafety.ReturnsAnswerInvocations` | app/agent/control.py:808-813 | every return answers an invocation of its own |
| `AgentControl.AgentTask.AppendEvent` | app/agent/control.py:1135-1151 | appends an event numbered one above the largest number in the log |
| `AgentControl.AgentTask.RecordObservation` | app/agent/control.py:995-999 | keeps the newest max_observations observations including the new one |
| `AgentControl.AgentTask.RecordFailure` | app/agent/control.py:950-966 | counts the failure; not retryable or over budget ends the task and clears its action |
| `AgentControl.AgentTask.PrepareToolAction` | app/agent/control.py:664-710 | installs a fresh pending action and, for a tool that requires approval, its approval request; refuses unknown tools and bad arguments |
| `AgentControl.AgentTask.PrepareContinuation` | app/agent/control.py:888-918 | arms a delayed read-only follow-up or returns to RUNNING; raises for other tools or a missing delay |
| `AgentControl.AgentTask.Resolve` | app/agent/control.py:419-483 | resolves the awaited approval; a rejection records an error observation and clears the action |
| `AgentControl.AgentTask.BeginExecution` | app/agent/control.py:721-795 | commits the started flag, or stops an interrupted non-idempotent action for good |
| `AgentControl.AgentTask.FinishExecution` | app/agent/control.py:838-880 | records the result and fails, continues or arms the follow-up; nothing when the pending action changed or the follow-up raises |
| `AgentControl.AgentTask.ApplyDecision` | app/agent/control.py:568-662 | the whole transaction of one decision, with its conflict and refusal outcomes |
| `AgentControl.AgentTask.TryComplete` | app/agent/control.py:615-637 | FINISH completes only on available evidence and otherwise counts as a retryable failure |
| `AgentControl.AgentControlService.Run` | app/agent/control.py:315-368 | when no error strikes: raises a conflict exactly for terminal tasks and another error exactly when a started action could not be recorded; leaves waiting tasks alone, executes a due pending action first, commits at most the capped number of decisions, and is a run of the task machine |
| `AgentControl.AgentControlService.ExecutePendingAction` | app/agent/control.py:712-886 | two transactions around the external call, each followed by a possible crash, as moves of the task machine |
| `AgentControl.AgentControlService.AdvanceOnce` | app/agent/control.py:530-566 | one planning turn: budget failure, model failure, refused or committed decision, and the execution it triggers |
| `AgentControl.AgentControlService.CommitDecision` | app/agent/control.py:568-662 | commits exactly the decision's transaction, or nothing when it is refused or conflicts |
| `AgentControl.AgentControlService.RecordModelFailure` | app/agent/control.py:920-948 | records a retryable failure with TASK_FAILED or MODEL_DECISION as its event |
| `AgentControl.AgentControlService.FailForBudget` | app/agent/control.py:968-993 | ends the task when its steps are used up |
| `AgentControl.AgentControlService.ResolveApproval` | app/agent/control.py:407-494 | errors change nothing; an approval executes the action at once; a rejection does not |
| `AgentControl.AgentControlService.SubmitInput` | app/agent/control.py:370-405 | succeeds exactly when input is awaited |
| `AgentControl.AgentControlService.Cancel` | app/agent/control.py:496-528 | succeeds exactly on live tasks and clears the pending action |
| `AgentControl.AgentControlService.Resume` | app/agent/control.py:178-184 | an active creator's task is run, an inactive one's failed, and the way the turn ends decides whether it counts as resumed, failed or skipped, or ends the batch |
| `AgentResume.ResumeReadyTasks` | app/agent/control.py:141-194 | refuses exactly the limits outside 1..100; selects by the filter, oldest first; each selected task has one turn, whatever other calls reached it before, and is filed by how it ended: failed exactly for a revoked creator, an unhandled error or a result that could not be recorded; skipped exactly for a missing row or a task that had already ended; all other tasks are left alone |
| `AgentResume.TurnsOfReady` | app/agent/control.py:178-189 | a selected task that no other call reached before its turn is skipped exactly when a row is missing, and failed exactly for a revoked creator, an unhandled error or an unrecorded result |
| `AgentResume.SelectsOldest` | app/agent/control.py:151-173 | the selection holds tasks the filter accepts, in order, and leaves an accepted one out only when it is full of older ones |
| `AgentControl.AgentControlService.Wait` | app/agent/control.py:339-344 | time passes for the wakeup check without a change of the record |
| `TaskLocks.LockProtocol` | app/agent/control.py:1158-1173 | after any interleaving the table has an entry exactly for tasks with threads inside, all of them refer to that entry, its count is their number, and at most one holds its lock |
| `TaskLocks.NoStaleLock` | app/agent/control.py:1158-1173 | a waiting thread can take the lock if and only if no thread of the same task holds it |
| `TaskLocks.ScheduleKeeps` | app/agent/control.py:1158-1173 | every interleaving keeps table, counts and holders consistent |
| `TaskLocks.TaskLockTable.EnterTask` | app/agent/control.py:1160-1165 | finds or creates the entry and counts the thread in |
| `TaskLocks.TaskLockTable.AcquireLock` | app/agent/control.py:1166-1168 | takes the entry's lock exactly when no thread holds it |
| `TaskLocks.TaskLockTable.ReleaseLock` | app/agent/control.py:1166-1169 | gives the entry's lock back and goes on to leave |
| `TaskLocks.TaskLockTable.ExitTask` | app/agent/control.py:1169-1173 | counts the thread out and drops the entry with its last user |
| `SnapshotPromotion.PromoteSnapshot` | scripts/prepare_embedding_snapshot.py:169-241 | under any faults: both objects new if and only if all renames and directory syncs succeed; otherwise re-raised if and only if no operation of the rollback fails, with the disk as before, minus the staged manifest exactly when an old manifest existed and all renames succeeded; recovery required in all other cases, never after a single fault, with every original at its path or backup and all remains named |
| `SnapshotPromotion.RestoreAfterFailedPromotion` | scripts/prepare_embedding_snapshot.py:128-166 | reports no error if and only if none of its operations fails, and then both targets are as before; goes on after each failure and never loses an original or the new snapshot |
| `SnapshotPromotion.MoveIntoPlace` | scripts/prepare_embedding_snapshot.py:188-202 | at whatever operation it stops, each object is untouched, backed up or replaced, as the two flags say, and the renames left to undo are known |
| `SnapshotPromotion.RemoveBackups` | scripts/prepare_embedding_snapshot.py:233-241 | touches only the backups |
| `PostprocessingLaws.OrderIndependent` | app/analysis/postprocessing.py:83-106 | native normalization depends only on the multiset of (mask, confidence) pairs |
| `PostprocessingLaws.SurvivorsAreSound` | app/analysis/postprocessing.py:218-233 | survivors have pairwise IoU below the threshold and every suppressed candidate overlaps one of them that is ranked before it |
| `InstanceLaws.SurestSurvives` | app/analysis/postprocessing.py:195-233 | every admitted mask survives, or a survivor shares at least the threshold of their pixels and has a higher confidence (missing counts as -1), or the same and a place that is not later |
| `InstanceLaws.SurvivorIsFinal` | app/analysis/postprocessing.py:237-254 | a survivor is a final instance unless border exclusion is on and one of its pixels is at the boundary |
| `InstanceLaws.NativeInstances` | app/analysis/postprocessing.py:47-106 | each final instance is the cleaned mask of some pair with its area, tight box, boundary flag and confidence; they are ordered by (y1, x1, y2, x2, area), surest first, and share less than the threshold |
| `PostprocessingLaws.ResultShape` | app/analysis/postprocessing.py:90-106 | final instances are numbered 1..n in spatial order, lie in the region, keep the minimum area and stay pairwise below the threshold |
| `PostprocessingLaws.FinalInstances` | app/analysis/postprocessing.py:237-254 | renumbering after border exclusion neither reorders nor loses an instance |
| `PostprocessingLaws.BorderAccounting` | app/analysis/postprocessing.py:237-254 | candidates = kept + excluded, and exclusion removes exactly the instances touching the boundary |
| `PostprocessingLaws.Idempotent` | app/analysis/postprocessing.py:195-234 | normalizing the output again returns the same instances in the same order |
| `Postprocessing.NormalizeNativeInstances` | app/analysis/postprocessing.py:195-234 | length and shape errors exactly when the source raises them, otherwise the normalized result |
| `Postprocessing.SuppressOverlaps` | app/analysis/postprocessing.py:225-233 | the suppression loop keeps what overlaps nothing kept before |
| `Postprocessing.CollectCandidates` | app/analysis/postprocessing.py:207-216 | the cleaning loop admits non-empty masks of the minimum area |
| `Pixels.OutsideIsLeast` | app/analysis/postprocessing.py:210-211 | hole filling removes exactly the background not reachable from the image edge |
| `Pixels.FilledPixel` | app/analysis/postprocessing.py:210-211 | a pixel is filled exactly when no path of single steps through the background leads to it from the image edge |
| `Pixels.FillInsideIdempotent` | app/analysis/postprocessing.py:209-211 | clip, fill and clip again is a closure: doing it twice changes nothing |
| `InstanceLaws.CleanPixel` | app/analysis/postprocessing.py:208-211 | cleaning keeps a pixel of the region exactly when it is in the mask or, with hole filling, out of reach of the image edge |
| `GreedySuppression.SuppressionIsJustified` | app/analysis/postprocessing.py:225-233 | whatever greedy suppression drops overlaps something kept before it |
| `KeyedSort.SortIgnoresOrder` | app/analysis/postprocessing.py:219-224 | sorting by a separating key is a function of the multiset |
| `SemanticSegments.SemanticResult` | app/analysis/postprocessing.py:143-171 | semantic instances are exactly the large enough segments the border policy leaves, disjoint, inside the clipped foreground, numbered in spatial order |
| `SemanticSegments.EverySegmentCounts` | app/analysis/postprocessing.py:162-170 | every foreground pixel lies in a segment, and a large enough segment becomes an instance with its mean probability |
| `InstanceLaws.ForegroundPixel` | app/analysis/postprocessing.py:129-136 | the foreground keeps a cleaned pixel exactly when its component has the minimum area |
| `InstanceLaws.SemanticInstances` | app/analysis/postprocessing.py:143-171 | each final instance is a large enough segment with its mean probability, area, tight box and boundary flag; they are disjoint and ordered by (y1, x1, y2, x2, area) |
| `InstanceLaws.SegmentIsFinal` | app/analysis/postprocessing.py:160-171 | a large enough segment is a final instance unless border exclusion is on and one of its pixels is at the boundary |
| `SemanticSegments.NormalizeSemanticMask` | app/analysis/postprocessing.py:143-171 | shape errors exactly when the source raises them, otherwise the normalized segments |
| `MaterialContexts.MergeIdentity` | app/agent/application.py:441-473 | a merge stands for both materials if and only if at most 32 values besides the merged formula and name are needed |
| `MaterialContexts.CollectedIdentity` | app/agent/application.py:452-466 | the collected aliases stand for every offered non-canonical value, each once |
| `MaterialContexts.StripTwice` | app/agent/application.py:357-361 | stripping is idempotent, so a cleaned alias keeps its normalized value |
| `MaterialContexts.StripIsTrim` | app/agent/application.py:357-361 | stripping takes exactly the white space at both ends |
| `MaterialContexts.SameNames` | app/agent/application.py:501-506 | names are the same when their case folds are equal or differ by white space, '_' and '-'; without such characters only then |
| `MaterialContexts.MergeMaterialContext` | app/agent/application.py:441-473 | the merge loop with its seen set |
| `MaterialContexts.AddMaterial` | app/agent/application.py:420-437 | merges the candidate and all later overlapping contexts into the first overlapping one |
| `MaterialContexts.JobMaterialContexts` | app/agent/application.py:408-438 | the loop over a job's rows |
| `MaterialPartition.JobIsComponents` | app/agent/application.py:408-438 | if no merge exceeds the alias limit, the identity sets of the contexts are the connected components of the rows' identity sets |
| `MaterialPartition.SameMaterialIffLinked` | app/agent/application.py:408-438 | two values land in one context if and only if a chain of rows links them |
| `MaterialNames.OneContextPerMaterial` | app/agent/application.py:408-438 | when no merge is cut, each name of a row has exactly one context, and it stands for another name exactly when a chain of rows and equal names links them |
| `MaterialNames.EqualFoldsMeet` | app/agent/application.py:408-438 | rows whose names have equal case folds end in one and the same context |
| `MaterialNames.ContextsAreDrawn` | app/agent/application.py:408-473 | every formula, name and alias of a context is the stripped text of a row, formulas from formulas and names from names |
| `MaterialPartition.JobIsDisjoint` | app/agent/application.py:420-437 | two contexts of a job never share a normalized value, even when merges were cut |
| `MaterialPartition.JobInsideComponents` | app/agent/application.py:420-473 | even when merges are cut, all a context stands for lies in one connected component of the rows |
| `MaterialPartition.ContextIsLinked` | app/agent/application.py:420-473 | two values of one context are always linked by a chain of rows |
| `MaterialPartition.RowOrderIrrelevant` | app/agent/application.py:399-407 | the partition does not depend on the order or repetition of rows |
| `MaterialPartition.LargeMaterialLost` | app/agent/application.py:471 | a material of more than 34 distinct values is never represented |
| `MaterialOrders.ExactConditionForAllOrders` | app/agent/application.py:408-473 | every order of the rows gives exactly the materials they are about, if and only if each has at most 33 values, or 34 of which none can become both formula and name of its context |
| `MaterialOrders.SafeFits` | app/agent/application.py:420-473 | under that condition no merge of a job is ever cut |
| `MaterialOrders.UnsafeOrder` | app/agent/application.py:408-473 | a material that breaks the condition has an order of the rows in which it is not represented |
| `MaterialWitness.OrderMatters` | app/agent/application.py:408-473 | 34 rows that keep a material of 34 values in one order and lose it in another |
| `Components.GroupsAreComponents` | app/agent/application.py:420-437 | groups built by successive joins are exactly the chain-connected components |
| `Components.ComponentsIgnoreOrder` | app/agent/application.py:420-437 | the components depend only on which sets occur |
| `Statistics.PercentileMonotone` | app/agent/data_tools.py:2042-2051 | the percentile of sorted values never decreases with the fraction |
| `Statistics.PercentileAtRank` | app/agent/data_tools.py:2042-2051 | at the k-th of n - 1 equal steps it is the k-th smallest value |
| `Statistics.PercentileIsLinear` | app/agent/data_tools.py:2042-2051 | between two ranks the percentile, in the list form and the SQL form, is the straight line from value to value |
| `Statistics.QuartileIsLinear` | app/agent/data_tools.py:1489-1498 | the q-th quartile lies r quarters of the way from rank k to the next, where 4 k + r = q (n - 1) |
| `Statistics.MedianIsPercentile` | app/agent/data_tools.py:1489-1498 | the library median equals the percentile at one half |
| `Statistics.QuartilesAreOrdered` | app/agent/data_tools.py:1489-1498 | min <= q1 <= median <= q3 <= max, and the SQL form computes the same three values |
| `Statistics.SqlPercentileAgrees` | app/agent/data_tools.py:1666-1696 | the OFFSET/LIMIT query computes the list form's percentile |
| `Statistics.Histogram` | app/agent/data_tools.py:2054-2070 | each value is counted once in the bin it lies in; the counts sum to n |
| `Statistics.OneBinEach` | app/agent/data_tools.py:2059-2061 | a value lies in the half-open bin of its index (the last one closed) and in no other |
| `Statistics.ShownBins` | app/agent/data_tools.py:2062-2070 | bins of equal width start at the minimum, touch, end at the maximum, and each counts the values between its own edges |
| `Statistics.SqlHistogramAgrees` | app/agent/data_tools.py:1699-1731 | the clamped, grouped query over the unordered table gives the same bins |
| `Statistics.SampleIsEvenlySpaced` | app/agent/data_tools.py:1744-1769 | the LIMIT never cuts the stride sample: multiples of the stride from row 0 on, all rows when they fit |
| `ContextBudget.BoundedNewestMappings` | app/agent/context_budget.py:42-59 | the longest suffix of the sliced tail that fits, or the newest mapping alone, cut |
| `ContextBudget.NewestFits` | app/agent/context_budget.py:42-59 | the result fits if and only if the budget is at least 20 or the newest mapping alone is small enough |
| `ContextBudget.BoundedMapping` | app/agent/context_budget.py:18-39 | the binary search finds the longest preview whose marker fits, or falls back to the bare flag |
| `ContextBudget.BoundedFormFits` | app/agent/context_budget.py:18-39 | the result fits if and only if there is room for the 18 characters of the flag or the mapping fitted anyway |
| `ContextBudget.BoundedTexts` | app/agent/context_budget.py:62-82 | the longest prefix or suffix that fits, or the text at that end, cut |
| `ContextBudget.TextsFit` | app/agent/context_budget.py:62-82 | the result fits if and only if the budget is at least 4 |
| `ContextBudget.BoundedText` | app/agent/context_budget.py:85-96 | the binary search finds the longest beginning that fits |
| `ContextBudget.PreviewMonotone` | app/agent/context_budget.py:29-38 | a longer preview never makes the marker shorter, so binary search is sound |
| `ContextBudget.WindowMonotone` | app/agent/context_budget.py:51-58 | a longer window never serializes shorter, so greedy is maximal |
| `ContextBudget.TailPositions` | app/agent/context_budget.py:51 | `values[-n:]` for every n, by positions |
| `ContextBudget.HeadPositions` | app/agent/context_budget.py:71 | `values[:n]` for every n, by positions |
| `ContextBudget.KeysInOrder` | app/agent/context_budget.py:22-26 | the keys shown are the first forty of all keys in code point order |
| `Json.EscapeRoundTrip` | app/agent/context_budget.py:9-15 | a reader of section 7 of RFC 8259 gets the escaped text back |
| `JsonReader.RoundTrip` | app/agent/context_budget.py:9-15 | a reader of RFC 8259 gets the whole serialized value back, and equal texts come from equal values |
| `Json.JoinedLength` | app/agent/context_budget.py:9-15 | the serialized length of a concatenation is the sum plus one separator |
| `RunLength.RoundTrip` | app/analysis/instance_artifacts.py:56-87 | decode(encode(m)) = m, and encode yields separated maximal runs that the decoder accepts |
| `RunLength.EncodeOfDecoded` | app/analysis/instance_artifacts.py:56-87 | encode(decode(r)) is r with touching runs joined, for every accepted r |
| `RunLength.SeparatedUnique` | app/analysis/instance_artifacts.py:56-65 | separated runs are determined by the pixels they cover |
| `RunLength.DecodeBinaryMask` | app/analysis/instance_artifacts.py:67-87 | accepts exactly equal-length, ordered, non-overlapping, in-range runs and paints them |
| `InstanceArtifacts.CanonicalInstancesPayload` | app/analysis/instance_artifacts.py:14-53 | errors exactly for bad dimensions or shapes; otherwise one record per instance from which the instance can be read back |
| `InstanceArtifacts.RecordRoundTrip` | app/analysis/instance_artifacts.py:28-45 | a reader of a record sees the instance's mask |
| `RegionOfInterest.BuildAnalysisRoi` | app/analysis/preprocessing.py:46-79 | the in-place painting yields the region or the first error the source raises |
| `RegionOfInterest.RoiPixel` | app/analysis/preprocessing.py:46-79 | a pixel counts iff inside the valid rectangle, outside every invalid one and, with boxes, in some active box |
| `RegionOfInterest.RoiErrors` | app/analysis/preprocessing.py:46-79 | which error is raised, in terms of the request: the exact condition of each, and the first active box that leaves the image |
| `RegionOfInterest.InferenceRectContains` | app/analysis/application.py:1096-1118 | the inference rectangle is inside the image and contains the region |
| `AnalysisRun.Union` | app/analysis/application.py:1818-1825 | the OR loop yields the union of the instance masks |
| `AnalysisRun.Measure` | app/analysis/morphometry.py:33-107 | particles in order with circularity at most 1 and physical sizes, coverage from the union, densities over the region in both units |
| `AnalysisRun.UnitsAgree` | app/analysis/morphometry.py:79-91 | the physical densities and diameters are the pixel ones in other units |
| `ReportLaws.SummaryMeans` | app/analysis/morphometry.py:69-107 | coverage, densities and means, multiplied out, are the covered pixels, the count and the sums of perimeters and diameters |
| `ReportLaws.ParticleFields` | app/analysis/morphometry.py:44-68 | a particle's fields are those of its mask and its circularity is 4 pi A over the squared perimeter, at most 1 |
| `AnalysisRun.Evaluate` | app/analysis/quality.py:23-87 | errors exactly for an empty region or inconsistent diagnostics, with the defaults of omitted counts; otherwise ratios, reasons, recommendations and status |
| `AnalysisRun.AdviceFollowsReasons` | app/analysis/quality.py:48-88 | a recommendation is made if and only if a reason it goes with is given |
| `AnalysisRun.ReasonsAreExact` | app/analysis/quality.py:48-75 | a reason is given if and only if its condition holds, and the reasons decide the status |
| `AnalysisRun.DistinctKeepsFirst` | app/analysis/quality.py:76-89 | warnings and recommendations are listed at their first occurrence, in order |
| `ReportLaws.MeanIsOfGiven` | app/analysis/quality.py:26-27 | the mean confidence times the number of given confidences is their sum |
| `ReportLaws.FragmentsAreSmall` | app/analysis/quality.py:28-33 | the fragment ratio is the share of instances below twice the minimum area, or below one pixel |
| `ReportLaws.EdgesAreShare` | app/analysis/quality.py:34-46 | the edge ratio is the share of candidates at the boundary |
| `AnalysisRun.NormalizeOutput` | app/analysis/application.py:1542-1589 | either kind of output is confined to the region with consistent counts |
| `AnalysisRun.Publish` | app/analysis/application.py:1197-1265 | coverage is in [0,1] and equals the gate's foreground ratio, record k of the artifact reads back as instance k and particle k is its measurement, the report's reasons, recommendations and status follow from these instances, and the gate's diagnostics check never fires |
| `AnalysisRun.ExecuteRun` | app/analysis/application.py:1096-1265 | each failure exit is taken if and only if its condition holds, and the run completes if and only if none does; what it publishes is mutually consistent and belongs to the given output |
| `BoundedHistory.HistoryIsExactTail` | app/agent/conversation.py:994-1015 | for turns >= 1 the selected messages stand at increasing positions of the conversation with no eligible message missing since the oldest of them, which alone may be cut and only in front; nothing is left out or cut unless the 2 * turns messages or the characters are used up |
| `BoundedHistory.Bounded` | app/agent/conversation.py:994-1015 | the reverse loop with its shrinking budget |
| `BoundedHistory.EligiblePositions` | app/agent/conversation.py:1000-1004 | the candidates are the messages at exactly the eligible positions, in order |
| `BoundedHistory.TailOfEligible` | app/agent/conversation.py:1000-1015 | the joined selection is the last min(total, max_chars) characters of the last 2 * turns eligible messages |
| `BoundedHistory.ClipIsTail` | app/agent/conversation.py:1005-1014 | spending the budget from the newest message back selects exactly a tail of the text |

## Left out

- HTTP, FastAPI wiring, the frontend, command lines, document builders, prompts, the Pydantic schemas and the concrete
  scientific tools: decisions and observations are arbitrary values instead.
- Sessions, repositories and migrations: a transaction is an atomic change of one record.
- Tenant and role checks: looking up a creator, and any step of a call, may fail in whatever way these make it fail.
- Plans, step texts, error texts, rationale, comments, versions and timestamps of a task: nothing that is proved depends
  on them. User input is taken as already stripped.
- AgentResume.ResumeReadyTasks: each task is a service object of its own, since tasks share no state besides the lock
  table; the order of `updated_at` is given; other calls are shown for selected tasks only, and only up to their turn.
- Scheduler fairness: the batch is ordered by `updated_at`, which a failed resume need not change, so no claim is made
  that every task is reached by some batch.
- Two service processes on one database: the task lock is a lock inside one process.
- Reentrant use of the task lock: no path of the service takes the lock twice.
- Wall-clock time and random ids: a logical clock and fresh numbers.
- Float rounding in percentiles, histograms, IoU and ratios: exact reals. SQL `CAST AS INTEGER` is truncation toward zero.
- Labelling, watershed, perimeter, equivalent diameter, hashing and PNG encoding are library calls: a labelling is any
  partition of the foreground, the others are arbitrary functions. That components of a filtered mask are the kept
  components is not used.
- Particle ids.
- Run status rows, provenance checks and file hashes of an analysis run.
- SEM footer and metadata detection, keyword routing and regular expressions for evidence: heuristics and string tables.
- Weighted means, group comparisons and outlier rules of the data tools: easy members beside the quartiles.
- Length limits of formula and name (255 characters), which the database columns enforce.
- JsonReader.RoundTrip: is about values whose numbers are spelled with digits, signs, points and exponents; NaN and
  Infinity, which Python writes for some floats, are no JSON.
- RunLength.DecodeBinaryMask: takes width and height as natural numbers; array allocation refuses a negative size.
- SnapshotPromotion.PromoteSnapshot: a removal that fails half-way leaves arbitrary content at that one path, and
  directory syncs are only points of failure, so loss of unsynced renames after a power cut is not modelled.
