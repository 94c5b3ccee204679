# Executions, activations and credentials of the n8n server

A Dafny model of four stateful parts of the server under `packages/cli/src`, with proofs of what they
keep over whole runs.

- **Executions.** `ActiveExecutions` keeps a table from execution id to a record with a status, a
  deferred result and a response promise. An `add` is split at its awaits (throttle, database, register);
  stopping, finalizing, changing status, attaching and answering a response, the callback on the settled
  promise, and cancelling a queued execution are one step each. `ConcurrencyControl.dfy` models the queue
  behind the throttle, `ActiveExecutions.dfy` the steps, `ExecutionOwnership.dfy` who owns a table entry,
  `ExecutionCapacity.dfy` the slots (as a refinement of the queue on its own) and the order in which
  they are handed out, `ExecutionResponses.dfy` what becomes of response promises, and
  `ExecutionShutdown.dfy` the class with its shutdown.
- **Workflow activation.** `ActiveWorkflows.dfy` models the in-memory set, `Webhooks.dfy` the webhook
  table and paths, `Activation.dfy` one attempt, the retry queue with its timers and the backoff, `Retries.dfy` retries
  overtaken while they wait,
  `Startup.dfy` start-up in concurrent batches, and `MultiMain.dfy` several instances with a leader key,
  takeover, stepdown and a bus of commands.
- **Credential types.** `CredentialTypes.dfy` models the walk that appends to the list it iterates over,
  with its termination, its exact result and its exact multiplicities.
- **Credential properties and generic authentication.** `CredentialsHelper.dfy` and
  `GenericAuthentication.dfy`.

Code that updates state is modelled by classes and methods whose `ensures` tie the new state to a
specification function; lemmas then prove the properties of that function. Outcomes of calls into other
systems (database, external services, expression evaluation, trigger nodes) are parameters, and every
outcome is covered. `Run` predicates describe finite sequences of states; lemmas named `...OverRuns` hold
at every position of every run.

## What turned out not to hold

The model follows the code. Where the code falls short of its documentation or of an expected property,
lemmas give the exact condition, a concrete case, or both.

- Cancelling a queued execution (`ConcurrencyQueue.remove`) wakes the next one although no running
  execution ended. The limit is kept exactly unless one of several queued executions is cancelled
  (`ConcurrencyQueue.LimitKeptExactly`, `ConcurrencyQueue.LimitExceeded`).
- `removeAll` is documented as emptying the queue and releasing all capacity. It wakes every second
  queued execution and can leave some behind when an id is queued twice. `shutdown` calls it after
  `disable()` in regular mode, and in queue mode the service is off from the start, so on shutdown it
  never cancels anything (`ExecutionShutdown.ActiveExecutionsService.Shutdown`,
  `ConcurrencyControl.QueueModeIsOff`).
- An `add` whose database call fails after the throttle never gives its slot back
  (`ExecutionCapacity.FailedAddsCostSlots`, `ExecutionCapacity.FailedAddBlocksNext`).
- The clean-up callback of an execution holds its record but deletes by id. The exact discipline that
  makes this safe is derived, and a run that breaks it is given
  (`ExecutionOwnership.StepOwned`, `ExecutionOwnership.UndisciplinedRemovesNewer`).
- `addWebhooks` expects a failing query when a path is taken, but `storeWebhook` is an upsert. It takes
  over rows of other workflows, and the clean-up then deletes them
  (`Webhooks.OthersKeptExactly`, `Webhooks.OthersRowGone`).
- `ActiveWorkflows.add` that fails at a poller after a trigger responded leaves the workflow active. One
  that fails at a trigger after another responded leaves a trigger open that nothing can close, and one
  that fails at a poller after another was set up, with no trigger response, leaves its cron jobs polling
  (`ActiveWorkflows.FailedAddUnchangedExactly`, `ActiveWorkflows.NothingLeakedExactly`,
  `ActiveWorkflows.FailedYetActive`, `ActiveWorkflows.PollerLeft`, `ActiveWorkflows.TriggerLeft`,
  `ActiveWorkflows.RecordReplaced`).
- A retry whose attempt fails after taking the workflow off the queue looks up an entry that is gone and
  throws itself (`Activation.RetryThrowsExactly`, `Activation.RetryThrew`).
- Two instances can both act as leader between the expiry of the leader key and the old leader's next
  check (`TriggerOwnership.TwoOwnersAfterExpiry`).
- With several main instances, handling a deactivation leaves the retry queue alone, an activation on
  command does not look at whether the workflow is active, and an activation under way can be overtaken by
  the removal. A deactivated workflow can come back exactly when a retry timer for it was running, or it
  was being activated or about to be, or a trigger of it was still open and could report an error
  (`ActivationCommands.ComesBackExactly`).
- A retry that fails overwrites whatever timer was set while it was under way, which then stays live; and a
  workflow removed meanwhile becomes active when the retry works (`Retries.OneTimerExactly`,
  `Retries.TwoTimers`, `Retries.RemovedYetActiveExactly`).
- When the refresh of the webhook cache fails, activation fails with all rows in place and no clean-up
  (`Webhooks.WebhookService.AddWebhooks`).
- The comment in `getCredentialsProperties` says that parent definitions take precedence; the own
  definition wins (`CredentialProperties.OwnDefinitionWins`). A property marked as not inheritable is
  dropped from the type's own list too as soon as the type has an `extends` list, even an empty one.

## Model

| member | source | states |
|---|---|---|
| `CredentialTypes.GetParentTypes` | packages/cli/src/credential-types.ts:26-38 | for every hierarchy without a cycle at or above the type, the loop over its own growing list and the recursion end, and the names returned are exactly the proper ancestors, each as often as the walk specification says |
| `CredentialTypes.AncestorsShrink` | packages/cli/src/credential-types.ts:33-35 | going up to any ancestor strictly shrinks the finite set of ancestors and keeps the hierarchy acyclic: the measure behind the recursion |
| `CredentialTypes.WalkStep` | packages/cli/src/credential-types.ts:33-35 | one turn of the loop moves exactly one visit from the pending suffix to the finished prefix: what is done plus what the suffix still gives rise to is constant, and the suffix weighs strictly less |
| `CredentialTypes.PendingStep` | packages/cli/src/credential-types.ts:34 | visiting the head of the pending list replaces it, at the back, by its own parent types and loses exactly one visit |
| `CredentialTypes.ParentListIsAncestors` | packages/cli/src/credential-types.ts:26-38 | the specification list holds a name if and only if a chain of `extends` leads to it, ancestry being defined by paths and not by the walk |
| `CredentialTypes.ReturnedByChain` | packages/cli/src/credential-types.ts:26-38 | the same told by the map alone: a name is returned if and only if a chain of `extends` entries leads to it, and every listed name is |
| `CredentialTypes.EndsOnlyWhenGrounded` | packages/cli/src/credential-types.ts:26-38 | the converse of termination: wherever results exist for a type and everything above it that satisfy what the loop leaves behind, there is no cycle at or above the type |
| `CredentialTypes.MultiplicityByVisits` | packages/cli/src/credential-types.ts:31-37 | every returned occurrence is a direct parent or was appended at the visit of some returned occurrence |
| `CredentialTypes.MultiplicityRecurrence` | packages/cli/src/credential-types.ts:31-37 | m(t,a) = direct(t,a) + the sum over x of m(t,x)*m(x,a), over any list of distinct names that covers the ancestors of t |
| `CredentialTypes.ChainMultiplicity` | packages/cli/src/credential-types.ts:31-37 | on a single-inheritance chain the ancestor at distance d is returned exactly Catalan(d-1) times |
| `CredentialProperties.MergeNodeProperties` | packages/workflow/src/node-helpers.ts:1529-1547 | afterwards every name carries the last inheritable definition of the added list and otherwise the one it had; existing names keep their places; names stay unique and inheritable |
| `CredentialProperties.FindIndex` | packages/workflow/src/node-helpers.ts:1537 | the first position with the name, or -1 exactly when there is none |
| `CredentialProperties.Written` | packages/workflow/src/node-helpers.ts:1537-1545 | one append or replacement changes what one name leads to and nothing else |
| `CredentialProperties.GetCredentialsProperties` | packages/cli/src/credentials-helper.ts:283-319 | succeeds if and only if every type at or above the given one is loaded, otherwise names one that is not; a type without `extends` gets its own properties untouched, any other gets each name once with the definition the hierarchy passes on |
| `CredentialProperties.PassedOnFrom` | packages/cli/src/credentials-helper.ts:309-318 | a name is collected if and only if some type at or above declares it as inheritable |
| `CredentialProperties.CollectsFromParentTypes` | packages/cli/src/credentials-helper.ts:283-319 | the contributing types are exactly the type itself and the names `getParentTypes` returns for it: two independent walks agree |
| `CredentialProperties.OwnDefinitionWins` | packages/cli/src/credentials-helper.ts:315-316 | the own definition of a type wins over every inherited one (the comment in the source says the opposite) |
| `CredentialProperties.InheritedFromLast` | packages/cli/src/credentials-helper.ts:309-313 | a name the type does not define itself carries the definition of the last parent to pass one on |
| `CredentialProperties.DeclaredExactly` | packages/cli/src/credentials-helper.ts:283-307 | a type contributes its own properties, and one more exactly for the two OAuth types without an `extends` list |
| `CredentialProperties.FindIsLast` | packages/workflow/src/node-helpers.ts:1529-1547 | in a merged list the first definition of a name is the last inheritable one, which lets collected lists be merged again |
| `CredentialProperties.NothingAbove` | packages/cli/src/credentials-helper.ts:290-307 | a type with no `extends` passes on exactly what it declares, the extra OAuth property included |
| `GenericAuthentication.Request.Authenticate` | packages/cli/src/credentials-helper.ts:115-147 | fails if and only if a written section holds a truthy non-object; otherwise every section is the old one overridden by the winning resolved entries or, if untouched, the old one, after a missing headers section became empty |
| `GenericAuthentication.Request.WriteSection` | packages/cli/src/credentials-helper.ts:123-143 | the inner loop extends the list of writes performed so far by exactly the entries of its section, in order |
| `GenericAuthentication.Request.SetField` | packages/cli/src/credentials-helper.ts:135-141 | one assignment: the section becomes an object if falsy, one field changes, all other sections stay |
| `GenericAuthentication.AfterOneMore` | packages/cli/src/credentials-helper.ts:135-141 | the section-wise reference grows by one write as the assignment does, for every section at once |
| `GenericAuthentication.AuthenticatedTwice` | packages/cli/src/credentials-helper.ts:115-147 | applying the authentication to its own result changes nothing and does not fail |
| `GenericAuthentication.OnlyTouchedSectionsChange` | packages/cli/src/credentials-helper.ts:117-119 | frame: an untouched section is as before, except that missing headers become an empty object |
| `GenericAuthentication.LastWriteWins` | packages/cli/src/credentials-helper.ts:121-141 | a field that was written carries the last value written to it |
| `GenericAuthentication.UnwrittenFieldStays` | packages/cli/src/credentials-helper.ts:121-141 | a field that was not written is not overridden |
| `GenericAuthentication.EntriesSet` | packages/cli/src/credentials-helper.ts:121-143 | told by the properties: each entry sets the field its name resolves to, to what its value resolves to, unless a later entry of the section names the same field; a field no entry names is what it was |
| `GenericAuthentication.BlockedExactly` | packages/cli/src/credentials-helper.ts:121-141 | authentication fails if and only if some section that has entries holds a truthy primitive |
| `GenericAuthentication.WritesAreEntries` | packages/cli/src/credentials-helper.ts:121-141 | the writes are exactly the entries, section by section, with name and value resolved |
| `ConcurrencyQueue.ConcurrencyQueue.Enqueue` | packages/cli/src/concurrency/concurrency-queue.ts:22-33 | capacity drops by one; the execution proceeds unless capacity went below zero, and then joins the end of the queue |
| `ConcurrencyQueue.ConcurrencyQueue.Dequeue` | packages/cli/src/concurrency/concurrency-queue.ts:39-43 | capacity rises by one and the head of the queue, if any, is woken |
| `ConcurrencyQueue.ConcurrencyQueue.Remove` | packages/cli/src/concurrency/concurrency-queue.ts:45-55 | takes the first item with the id out, raises capacity and wakes the then head; nothing happens for an unknown id |
| `ConcurrencyQueue.ConcurrencyQueue.ResolveNext` | packages/cli/src/concurrency/concurrency-queue.ts:65-75 | wakes and drops the head |
| `ConcurrencyQueue.StepBalanced` | packages/cli/src/concurrency/concurrency-queue.ts:22-75 | capacity is the limit less those running less those waiting, and nobody waits while there is room: kept by arrival, release and cancellation |
| `ConcurrencyQueue.LimitKeptExactly` | packages/cli/src/concurrency/concurrency-queue.ts:45-55 | a step keeps the number of running executions within the limit if and only if it is not the cancellation of one of several queued executions |
| `ConcurrencyQueue.LimitOverRuns` | packages/cli/src/concurrency/concurrency-queue.ts:22-75 | in every run the limit is exceeded by at most the number of such cancellations, hence never without one |
| `ConcurrencyQueue.LimitExceeded` | packages/cli/src/concurrency/concurrency-queue.ts:45-55 | a concrete run from the empty queue with limit 1 that ends with two executions running |
| `ConcurrencyQueue.FirstComeFirstServed` | packages/cli/src/concurrency/concurrency-queue.ts:22-75 | over every run, those woken followed by those waiting are the arrivals that found the limit reached, in order, without the cancelled ones |
| `ConcurrencyQueue.WaitingAreLatest` | packages/cli/src/concurrency/concurrency-queue.ts:22-75 | the same by looking at the queue only: those waiting are the latest of these arrivals, in order |
| `ConcurrencyQueue.ServedInOrder` | packages/cli/src/concurrency/concurrency-queue.ts:22-43 | without cancellations: simply the arrivals that found the limit reached, in order |
| `ConcurrencyQueue.RemoveAllWakesEverySecond` | packages/cli/src/concurrency/concurrency-control.service.ts:147-153 | removing all queued ids one by one empties a queue of distinct executions but wakes every second one, and returns capacity for the other half only |
| `ConcurrencyQueue.RemovePair` | packages/cli/src/concurrency/concurrency-queue.ts:45-55 | removing an execution wakes its successor, which is then no longer found when its own turn comes |
| `ConcurrencyControl.Service.Disable` | packages/cli/src/concurrency/concurrency-control.service.ts:164-166 | switches limiting off and leaves the queues alone |
| `ConcurrencyControl.Service.RemoveAll` | packages/cli/src/concurrency/concurrency-control.service.ts:144-162 | every queue goes through the ids it held at the start; the given executions are passed on for cancellation only while the service is enabled |
| `ConcurrencyControl.Service.EmptyQueue` | packages/cli/src/concurrency/concurrency-control.service.ts:147-153 | one turn over the queues: the queue of one kind is drained, the other untouched |
| `ConcurrencyControl.Service.RemoveEach` | packages/cli/src/concurrency/concurrency-control.service.ts:148-152 | the loop over a snapshot of the ids equals removing them one after the other |
| `ConcurrencyControl.EmptiedIsEmpty` | packages/cli/src/concurrency/concurrency-control.service.ts:139-162 | on distinct executions, which is enough but not always needed, every queue ends empty, with half of its slots handed to woken executions (the documentation promises all capacity back) |
| `ConcurrencyControl.DistinctAreFirstOccurrences` | packages/cli/src/concurrency/concurrency-queue.ts:57-59 | the set of ids of distinct executions iterates in queue order |
| `ConcurrencyControl.RemoveAllCanLeaveSome` | packages/cli/src/concurrency/concurrency-control.service.ts:147-153 | with an id queued twice, emptying the queue leaves an execution behind |
| `ConcurrencyControl.QueueModeIsOff` | packages/cli/src/concurrency/concurrency-control.service.ts:42-63 | however the limits are configured, in queue mode the service never limits anything |
| `ConcurrencyControl.BuiltExactly` | packages/cli/src/concurrency/concurrency-control.service.ts:42-74 | which limits are refused, when limiting is on, and which queue of what capacity there is |
| `ConcurrencyControl.WhoIsLimited` | packages/cli/src/concurrency/concurrency-control.service.ts:115-137 | webhook and trigger executions share the production limit, evaluations have their own, no other mode ever meets a queue |
| `ActiveExecutions.StepWellFormed` | packages/cli/src/active-executions.ts:46-212 | every step leaves each table entry pointing at a record filed under its own id |
| `ExecutionOwnership.StepOwned` | packages/cli/src/active-executions.ts:92-196 | a step keeps "every execution with an open promise or a due callback is the one filed under its id" if and only if it obeys a discipline on status, promise and whether the callback has run |
| `ExecutionOwnership.VisibleDisciplineSuffices` | packages/cli/src/active-executions.ts:92-196 | a discipline in what a caller can see, status and promise only, is enough, and differs from the exact one only while a callback is due |
| `ExecutionOwnership.RegisterOwned` | packages/cli/src/active-executions.ts:92-103 | registering keeps ownership if and only if the id is free or its record is waiting and settled |
| `ExecutionOwnership.StopOwned` | packages/cli/src/active-executions.ts:157-174 | stopping keeps ownership if and only if a waiting execution is stopped after its promise settled (the assumption in the comment at 166) |
| `ExecutionOwnership.SetStatusOwned` | packages/cli/src/active-executions.ts:244-246 | setting a status keeps ownership if and only if a waiting execution whose callback has run stays waiting |
| `ExecutionOwnership.CleanUpOwned` | packages/cli/src/active-executions.ts:106-120 | under ownership the callback, which deletes by id, deletes the entry of its own record |
| `ExecutionOwnership.OwnershipOverRuns` | packages/cli/src/active-executions.ts:46-196 | over every disciplined run, all interleavings included, ownership holds and no callback of an older record removes a newer one |
| `ExecutionOwnership.UndisciplinedRemovesNewer` | packages/cli/src/active-executions.ts:106-120 | without the discipline a run from the empty table reaches a state in which a due callback removes a newer, still running execution |
| `ExecutionOwnership.IdentityKept` | packages/cli/src/active-executions.ts:97-100 | while an id stays in the table its start time never changes and its response promise changes only by attaching |
| `ExecutionOwnership.RegisteredEntry` | packages/cli/src/active-executions.ts:92-103 | registering files a running execution of the mode asked for, with an open promise, that started now unless resumed |
| `ExecutionOwnership.RecordStep` | packages/cli/src/active-executions.ts:106-246 | what each step does to a record that exists: status, outcome and callback, and that everything else about it stays |
| `ExecutionOwnership.IdentityOverRuns` | packages/cli/src/active-executions.ts:97-100 | over any number of waits and resumptions the start time is that of the first registration and the response promise the last one attached |
| `ExecutionOwnership.LeavesTableBy` | packages/cli/src/active-executions.ts:106-174 | an id leaves the table only by being stopped while waiting or by the callback of a non-waiting record of that id |
| `ExecutionOwnership.ResponseSettledBy` | packages/cli/src/active-executions.ts:142-212 | a response promise is settled only by stopping or answering its execution, or by `resolveExecutionResponsePromise` while it does not wait |
| `ExecutionOwnership.FirstSettlementWins` | packages/cli/src/active-executions.ts:106-196 | for every non-empty sequence of stop and finalize calls the outcome is that of the first, no other record is touched, and the one callback removes the entry and cannot run again |
| `ExecutionCapacity.StepFollows` | packages/cli/src/active-executions.ts:71-120 | refinement: for the queue of each kind every step of the table is one arrival, release or cancellation of the stand-alone queue system, or nothing |
| `ExecutionCapacity.CapacityConserved` | packages/cli/src/active-executions.ts:46-125 | in every interleaved run capacity is the limit less the slots held (adds past the throttle and unregistered or failed, registered executions whose callback has not run) less the queued ones |
| `ExecutionCapacity.StepBalanced` | packages/cli/src/active-executions.ts:46-125 | a step that starts within the limit ends within it if and only if it is not the cancellation of one of several queued executions |
| `ExecutionCapacity.LimitKept` | packages/cli/src/active-executions.ts:46-125 | a run without such a cancellation never exceeds the limit |
| `ExecutionCapacity.AllReturnedExactly` | packages/cli/src/active-executions.ts:106-120 | all capacity is back if and only if nobody is queued, no add is past the throttle and unregistered or failed, and every callback has run |
| `ExecutionCapacity.FailedAddsCostSlots` | packages/cli/src/active-executions.ts:71-89 | every add whose database call fails after the throttle costs a slot for good: at every later position of every run capacity is below the limit by at least the number of adds that had failed |
| `ExecutionCapacity.FailedAddBlocksNext` | packages/cli/src/active-executions.ts:71-73 | a concrete run: limit 1, the only execution fails in the database, the next one waits although nothing is active |
| `ExecutionCapacity.StepKeepsFailed` | packages/cli/src/active-executions.ts:71-120 | no step touches an add that has failed |
| `ExecutionCapacity.GrantsMatched` | packages/cli/src/active-executions.ts:71-120 | grants minus releases are the slots held, and two records never share the grant they release |
| `ExecutionCapacity.StepLinked` | packages/cli/src/active-executions.ts:92-103 | each record belongs to one add of its own id and mode, and registered adds and records stay equal in number |
| `ExecutionCapacity.WakeHead` | packages/cli/src/concurrency/concurrency-queue.ts:65-75 | waking the head of a queue turns one waiting add of that kind into a slot holder and touches no other kind |
| `ExecutionCapacity.DropItem` | packages/cli/src/executions/execution.service.ts:463-467 | cancelling a queued execution drops its add and frees no slot |
| `ExecutionCapacity.CancelQueuedBecomes` | packages/cli/src/executions/execution.service.ts:463-467 | stopping a queued execution changes the queue of its kind like `remove` and the slots held by whom it woke |
| `ExecutionCapacity.BeginAddBecomes` | packages/cli/src/active-executions.ts:71-79 | an add takes a slot at once or joins the queue of its kind, and nothing else moves |
| `ExecutionCapacity.CleanUpBecomes` | packages/cli/src/active-executions.ts:111-112 | the callback gives one slot of its kind back and passes it on if somebody waits |
| `ExecutionCapacity.RegisterHeld` | packages/cli/src/active-executions.ts:92-103 | registering moves a slot from the add to the record |
| `ExecutionCapacity.InLineOverRuns` | packages/cli/src/concurrency/concurrency-queue.ts:22-75 | over every run, the waiting adds of a kind stand in its queue in the order of their calls, nobody is left out, and no other mode waits |
| `ExecutionCapacity.GrantedInOrder` | packages/cli/src/active-executions.ts:71-79 | when a step grants a waiting add, nobody who asked before it for the same kind is left waiting |
| `ExecutionCapacity.StepInLine` | packages/cli/src/active-executions.ts:71-120 | every step of the table keeps the lines in order |
| `ExecutionResponses.ResponseStep` | packages/cli/src/active-executions.ts:142-212 | an open response promise that a call reaches is rejected by a stop and resolved by an answer; a settled one, and any that is not reached, stays as it is |
| `ExecutionResponses.SettledForGood` | packages/cli/src/active-executions.ts:142-212 | over every run a settled response promise never changes |
| `ExecutionResponses.FirstCallDecides` | packages/cli/src/active-executions.ts:142-212 | over every run a response promise is open until the first call reaches it, and from then on rejected or resolved according to that call |
| `ExecutionShutdown.ActiveExecutionsService.BeginAdd` | packages/cli/src/active-executions.ts:68-79 | the first part of `add` is the step of the model, and proceeds exactly when granted |
| `ExecutionShutdown.ActiveExecutionsService.Register` | packages/cli/src/active-executions.ts:92-103 | the second part of `add`: a resumed record hands on its start time and response promise |
| `ExecutionShutdown.ActiveExecutionsService.CleanUp` | packages/cli/src/active-executions.ts:111-120 | the callback on the settled promise: release, then delete by id unless waiting |
| `ExecutionShutdown.ActiveExecutionsService.StopExecution` | packages/cli/src/active-executions.ts:157-174 | rejects the response promise, and deletes a waiting execution or rejects the promise of any other |
| `ExecutionShutdown.ActiveExecutionsService.FinalizeExecution` | packages/cli/src/active-executions.ts:177-196 | settles the promise if it is open; unknown ids are ignored |
| `ExecutionShutdown.ActiveExecutionsService.ResolveResponsePromise` | packages/cli/src/active-executions.ts:142-145 | answers whatever the status |
| `ExecutionShutdown.ActiveExecutionsService.ResolveExecutionResponsePromise` | packages/cli/src/active-executions.ts:199-212 | answers unless waiting |
| `ExecutionShutdown.ActiveExecutionsService.SetStatus` | packages/cli/src/active-executions.ts:244-246 | changes the status of the record the id leads to, or reports that there is none |
| `ExecutionShutdown.ActiveExecutionsService.AttachResponsePromise` | packages/cli/src/active-executions.ts:135-140 | replaces the response promise of the record the id leads to, or reports that there is none |
| `ExecutionShutdown.ActiveExecutionsService.Shutdown` | packages/cli/src/active-executions.ts:253-273 | the pass changes exactly the entries it should, the ids to cancel are the covered ones in table order, exactly the open response promises of executions in the table are rejected, and in regular mode, or with limiting off, nothing is passed on for cancellation in the database |
| `ExecutionShutdown.ActiveExecutionsService.Pass` | packages/cli/src/active-executions.ts:262-271 | the loop over the ids: per entry stopped, deleted or left, everything else as before |
| `ExecutionShutdown.ActiveExecutionsService.ShutdownOne` | packages/cli/src/active-executions.ts:262-271 | one turn of that loop |
| `ExecutionShutdown.PassOne` | packages/cli/src/active-executions.ts:262-271 | a turn extends the account of the pass by its id, although entries have been deleted before |
| `ExecutionShutdown.AnsweredNext` | packages/cli/src/active-executions.ts:262-266 | a turn of the pass rejects the response promise of its execution and no other |
| `ExecutionShutdown.CleanUpKeepsSurvivors` | packages/cli/src/active-executions.ts:111-120 | a callback deletes a due entry and leaves the set of survivors alone |
| `ExecutionShutdown.CallbacksDrain` | packages/cli/src/active-executions.ts:111-120 | the pending callbacks, in any order, delete exactly the due entries |
| `ExecutionShutdown.PassLeavesDue` | packages/cli/src/active-executions.ts:262-271 | after the pass the survivors are exactly the open, uncovered executions that are neither waiting nor new |
| `ExecutionShutdown.ShutdownDrains` | packages/cli/src/active-executions.ts:253-287 | after the pass and the callbacks exactly those executions remain; in regular mode with cancel-all the table is empty, so the waiting loop ends |
| `ExecutionShutdown.CoveredOnce` | packages/cli/src/active-executions.ts:261-266 | the ids to cancel hold every covered id once and nothing else; with cancel-all in regular mode they are all the ids |
| `WebhookPath.LooksDynamicExactly` | packages/cli/src/active-workflow-manager.ts:188 | the dynamic test holds if and only if some segment of the path begins with a colon |
| `WebhookPath.TrimmingKeepsDynamic` | packages/cli/src/active-workflow-manager.ts:181-188 | trimming one slash at each end does not change the answer, although the test reads the untrimmed path |
| `WebhookPath.LaterSegments` | packages/cli/src/active-workflow-manager.ts:188 | a slash followed by a colon occurs exactly when a segment after the first begins with a colon |
| `WebhookPath.SegmentCount` | packages/cli/src/active-workflow-manager.ts:190 | the stored length is one more than the number of slashes |
| `WebhookPath.TrimmedExactly` | packages/cli/src/active-workflow-manager.ts:181-186 | trimming takes one slash off each end where there is one and nothing else |
| `WebhookPath.RequestHasOneMore` | packages/cli/src/webhooks/webhook.service.ts:78-79 | a path made of a slash-free first segment and a rest splits into that segment and the segments of the rest; no lookup is modelled |
| `Webhooks.WebhookService.StoreWebhook` | packages/cli/src/webhooks/webhook.service.ts:114-118 | insert, or replace the row of that method and path, whichever workflow holds it |
| `Webhooks.WebhookService.DeleteWorkflowWebhooks` | packages/cli/src/webhooks/webhook.service.ts:124-128 | removes the rows of the workflow and no others |
| `Webhooks.WebhookService.ClearWebhooks` | packages/cli/src/active-workflow-manager.ts:245-278 | rows go only if the workflow is found and every external deregistration works; otherwise nothing changes |
| `Webhooks.WebhookService.AddWebhooks` | packages/cli/src/active-workflow-manager.ts:160-239 | the outcome and the table for every list of webhooks, every failing position, both kinds of failure, either result of the clean-up, and a cache refresh that fails at the end |
| `Webhooks.WrittenIs` | packages/cli/src/active-workflow-manager.ts:168-196 | the rows written are those of the attempts that got past storing, all for this workflow |
| `Webhooks.RowIs` | packages/cli/src/active-workflow-manager.ts:172-191 | a row belongs to its workflow and node, and carries the webhook id and one more than the number of slashes exactly if a segment is a parameter and the node has an id |
| `Webhooks.LastStoredCounts` | packages/cli/src/active-workflow-manager.ts:168-196 | of several webhooks with the same method and path the last one stored counts |
| `Webhooks.AllOrNothing` | packages/cli/src/active-workflow-manager.ts:168-229 | other than on init, a registration that goes through leaves a row for every webhook, and one that fails and is cleaned up leaves the workflow none |
| `Webhooks.OthersKeptExactly` | packages/cli/src/active-workflow-manager.ts:193-213 | another workflow keeps its row if and only if no attempt writes that method and path |
| `Webhooks.OthersRowGone` | packages/cli/src/active-workflow-manager.ts:193-213 | a concrete registration that fails and is cleaned up, after which the row of another workflow is gone |
| `Webhooks.NothingForOthers` | packages/cli/src/active-workflow-manager.ts:193-213 | no row of another workflow ever appears or changes otherwise |
| `Webhooks.InitAgain` | packages/cli/src/active-workflow-manager.ts:198-205 | an init run over a table that holds the rows of the workflow already, with nothing failing but queries, succeeds and leaves the table as it is |
| `ActiveWorkflows.ActiveWorkflowsService.Add` | packages/core/src/execution-engine/active-workflows.ts:66-132 | succeeds if and only if no trigger throws and no poller fails; says in every case what is recorded, which open triggers are on no record, and how many cron jobs are registered; other workflows are untouched |
| `ActiveWorkflows.ActiveWorkflowsService.ActivatePolling` | packages/core/src/execution-engine/active-workflows.ts:177-190 | one poll, then a cron job per cron time up to the first rejected one |
| `ActiveWorkflows.ActiveWorkflowsService.StartTriggers` | packages/core/src/execution-engine/active-workflows.ts:79-100 | the responses and cron jobs obtained up to the first trigger that throws |
| `ActiveWorkflows.ActiveWorkflowsService.StartPollers` | packages/core/src/execution-engine/active-workflows.ts:108-131 | the cron jobs registered up to and including the first poller that fails |
| `ActiveWorkflows.ActiveWorkflowsService.Remove` | packages/core/src/execution-engine/active-workflows.ts:195-211 | nothing for a workflow without a record; otherwise no cron job is left, recorded triggers are closed up to one that throws, and the record goes unless one did |
| `ActiveWorkflows.ActiveWorkflowsService.CloseTriggers` | packages/core/src/execution-engine/active-workflows.ts:204-206 | exactly the triggers that close before one throws are closed |
| `ActiveWorkflows.RemovedExactly` | packages/core/src/execution-engine/active-workflows.ts:195-211 | a removal leaves nothing behind if and only if nothing had leaked before and every open trigger closes without a throw |
| `ActiveWorkflows.FailedAddUnchangedExactly` | packages/core/src/execution-engine/active-workflows.ts:79-131 | a failed add leaves the very record of the workflow in place if and only if a trigger threw, or the workflow was inactive and no trigger responded |
| `ActiveWorkflows.RecordReplaced` | packages/core/src/execution-engine/active-workflows.ts:102 | a concrete failed add that replaces a record by one that looks the same, so that the old trigger can no longer be closed |
| `ActiveWorkflows.NothingLeakedExactly` | packages/core/src/execution-engine/active-workflows.ts:79-131 | after an add everything open can still be closed if and only if: with a trigger throwing, none responded before and the workflow was active or no cron job was registered; with a poller failing and no response, there is no open trigger and no cron job at all; otherwise no trigger was open |
| `ActiveWorkflows.TriggersOneByOne` | packages/core/src/execution-engine/active-workflows.ts:79-100 | each trigger adds its response and its cron jobs, one that throws its cron jobs only, and nothing counts after it |
| `ActiveWorkflows.PollersOneByOne` | packages/core/src/execution-engine/active-workflows.ts:108-131 | each poller adds its cron jobs, and nothing counts after one that fails |
| `ActiveWorkflows.AcceptedExactly` | packages/core/src/execution-engine/active-workflows.ts:180-189 | the cron times accepted are exactly those before the first rejected one |
| `ActiveWorkflows.FailedYetActive` | packages/core/src/execution-engine/active-workflows.ts:118-130 | a concrete failed add that leaves the workflow active |
| `ActiveWorkflows.PollerLeft` | packages/core/src/execution-engine/active-workflows.ts:118-130 | a concrete failed add whose first poller keeps polling with no record left |
| `ActiveWorkflows.RejectedCronTimeLeavesAnother` | packages/core/src/execution-engine/active-workflows.ts:180-189 | the same with one poller whose second cron time is rejected |
| `ActiveWorkflows.TriggerLeft` | packages/core/src/execution-engine/active-workflows.ts:92-98 | a concrete failed add that leaves a trigger open on no record |
| `Activation.ActivationManager.AddWorkflow` | packages/cli/src/active-workflow-manager.ts:525-623 | `add` on one instance: skipped, done or failed exactly as specified, with memory, queue entry, timer and error accordingly |
| `Activation.ActivationManager.AddTriggersAndPollers` | packages/cli/src/active-workflow-manager.ts:905-949 | nothing without trigger or poller nodes, otherwise the effect of `ActiveWorkflows.add` on being active |
| `Activation.ActivationManager.ActivateWorkflow` | packages/cli/src/active-workflow-manager.ts:447-485 | a failed activation is queued for retry as an init activation unless its message mentions authorization |
| `Activation.ActivationManager.RetryFunction` | packages/cli/src/active-workflow-manager.ts:761-795 | the function of a timer: tries the remembered workflow and re-arms, or throws exactly when its entry is gone |
| `Activation.ActivationManager.RetryFailed` | packages/cli/src/active-workflow-manager.ts:768-788 | doubles the recorded delay up to the cap and sets a new timer for the same job |
| `Activation.ActivationManager.AddQueuedWorkflowActivation` | packages/cli/src/active-workflow-manager.ts:754-806 | an older entry and its timer are gone and one new timer of one second is recorded |
| `Activation.ActivationManager.RemoveQueuedWorkflowActivation` | packages/cli/src/active-workflow-manager.ts:811-816 | entry and recorded timer are gone |
| `Activation.ActivationManager.RemoveAllQueuedWorkflowActivations` | packages/cli/src/active-workflow-manager.ts:821-825 | the loop over the keys leaves no entry and no recorded timer, for every workflow at once |
| `Activation.ActivationManager.EmitError` | packages/cli/src/active-workflow-manager.ts:370-394 | a trigger error deactivates, records the error and queues a retry |
| `Activation.ActivationManager.RemoveWorkflow` | packages/cli/src/active-workflow-manager.ts:851-870 | removal deregisters the error, takes the workflow off the queue and deactivates it |
| `Activation.TimersKept` | packages/cli/src/active-workflow-manager.ts:754-816 | every step, whatever fails in it, keeps "at most one live timer, and it is the recorded one with the recorded job" |
| `Activation.ErrorKeptExactly` | packages/cli/src/active-workflow-manager.ts:611-616 | a step keeps "queued means an error on record" if and only if it does not clear the errors of a queued workflow |
| `Activation.EndsExactly` | packages/cli/src/active-workflow-manager.ts:525-623 | when an attempt is skipped and when it succeeds, by activation mode and by what starts, polls or fails |
| `Activation.AttemptLeaves` | packages/cli/src/active-workflow-manager.ts:604-616 | what an attempt leaves behind: active, off the queue and without error on success; the error on record on failure |
| `Activation.ErrorAndRemoval` | packages/cli/src/active-workflow-manager.ts:370-871 | what a trigger error and a removal leave behind |
| `Activation.IsAuthorizationExactly` | packages/cli/src/active-workflow-manager.ts:481 | a message counts as an authorization error exactly if the word is in it |
| `Activation.MemoryKeptExactly` | packages/cli/src/active-workflow-manager.ts:525-795 | a step keeps "queued means not in memory" if and only if it meets a condition on the state before and on which nodes start, poll or fail |
| `Activation.NothingLeftWhenDone` | packages/cli/src/active-workflow-manager.ts:604-606 | after any successful attempt or a removal there is no entry, timer or error |
| `Activation.RetryThrowsExactly` | packages/cli/src/active-workflow-manager.ts:768-771 | the retry function itself throws if and only if webhooks, triggers and pollers are all in place and the database fails after that |
| `Activation.RetryThrew` | packages/cli/src/active-workflow-manager.ts:605-616 | a concrete retry that throws |
| `Activation.LeftActiveExactly` | packages/core/src/execution-engine/active-workflows.ts:104-131 | a failed attempt leaves an inactive workflow active if and only if every trigger started, one responded, and a poller failed |
| `Activation.TimersOverRuns` | packages/cli/src/active-workflow-manager.ts:754-816 | in every run in which a retry is one step, with no other condition on it, there is never more than one live timer and it is the recorded one |
| `Activation.ErrorOverRuns` | packages/cli/src/active-workflow-manager.ts:611-616 | in every run in which errors are cleared only while nothing is queued, every queued workflow has an error on record |
| `Activation.MemoryOverRuns` | packages/cli/src/active-workflow-manager.ts:370-795 | in every run of steps meeting the condition, no queued workflow is in memory |
| `Activation.DelayClosedForm` | packages/cli/src/active-workflow-manager.ts:771-774 | after n failures the delay is min(1000*2^n, 86400000), which is the cap if and only if n >= 17 |
| `Activation.DelayNeverDecreases` | packages/cli/src/active-workflow-manager.ts:771-774 | the delay never decreases |
| `Activation.WaitedClosedForm` | packages/cli/src/active-workflow-manager.ts:771-787 | the wait before retry k is 1000*(2^k-1) up to k = 17 and grows by a day per retry after that |
| `Activation.RetriesBackOff` | packages/cli/src/active-workflow-manager.ts:761-806 | the queue really uses these delays: after n failed retries the recorded delay is the n-th, with a live recorded timer for the same job |
| `Retries.HalvesAreWhole` | packages/cli/src/active-workflow-manager.ts:761-794 | a retry taken apart at its await is the retry as one step when nothing comes in between |
| `Retries.OneTimerExactly` | packages/cli/src/active-workflow-manager.ts:761-794 | with retries taken apart, a step keeps at most one live timer if and only if it is not a retry that fails and finds an entry whose timer was set after it began; then there are two |
| `Retries.OneTimerOverRuns` | packages/cli/src/active-workflow-manager.ts:754-816 | in every run in which nothing queues the workflow while its own retry is under way there is never more than one live timer, whatever else happens meanwhile |
| `Retries.TwoTimers` | packages/cli/src/active-workflow-manager.ts:786-787 | a concrete run that ends with two live timers |
| `Retries.RemovedYetActiveExactly` | packages/cli/src/active-workflow-manager.ts:761-870 | a workflow removed while its own retry is under way ends up active if and only if the retry registers it |
| `Startup.AddActiveWorkflows` | packages/cli/src/active-workflow-manager.ts:425-445 | for every batch size of at least one the loop over batches is trying the workflows one at a time; for size zero nothing happens |
| `Startup.RunBatch` | packages/cli/src/active-workflow-manager.ts:436-442 | one batch, its activations in order |
| `Startup.ScriptIsStart` | packages/cli/src/active-workflow-manager.ts:447-485 | the sequence of single updates an activation makes amounts to the activation as a whole |
| `Startup.RowsAreWritten` | packages/cli/src/active-workflow-manager.ts:168-196 | the row updates of an activation change the table as `addWebhooks` does |
| `Startup.ScriptTable` | packages/cli/src/active-workflow-manager.ts:587-594 | on init the activation of a workflow does to the webhook table exactly what `addWebhooks` does, clean-up included; on a takeover, or with nothing to activate, nothing |
| `Startup.DeclaredKeysHeld` | packages/cli/src/active-workflow-manager.ts:425-485 | after start-up every webhook of every workflow that is there to be activated and whose webhooks work is in the table and held by it, if no other one declares its keys |
| `Startup.DeclaredKeysHeldInBatches` | packages/cli/src/active-workflow-manager.ts:434-442 | the same for batches whose activations interleave |
| `Startup.TakeoverWritesNoRows` | packages/cli/src/active-workflow-manager.ts:958-969 | a takeover leaves the webhook table as it is |
| `Startup.Commute` | packages/cli/src/active-workflow-manager.ts:436-442 | updates for different workflows commute unless they write the same webhook |
| `Startup.PullForward` | packages/cli/src/active-workflow-manager.ts:436-442 | all updates of one workflow can be moved to the front of an interleaving |
| `Startup.AnyInterleaving` | packages/cli/src/active-workflow-manager.ts:436-442 | if no two workflows of a batch write the same webhook, any interleaving of its activations ends in the state of trying them one at a time |
| `Startup.BatchesDoNotMatter` | packages/cli/src/active-workflow-manager.ts:434-442 | so does start-up as a whole, for every batch size of at least one and every interleaving inside batches of which no two workflows write the same webhook |
| `Startup.ChunkRest` | packages/cli/src/active-workflow-manager.ts:434 | the batches are consecutive pieces of the list that leave nothing out |
| `Startup.TriedOnce` | packages/cli/src/active-workflow-manager.ts:434-442 | each workflow is tried exactly once and nothing else touches it |
| `Startup.AccountedFor` | packages/cli/src/active-workflow-manager.ts:425-485 | for every batch size of at least one and every interleaving inside the batches, webhooks declared twice included, each untouched workflow on the list ends in exactly one of: activated, skipped, queued with its error on record, dropped with it on an authorization error; workflows not on the list are as they were |
| `Startup.StartedOnce` | packages/cli/src/active-workflow-manager.ts:434-485 | each listed workflow ends as one activation of it would leave it, whatever the others do |
| `Startup.TraceIsLocal` | packages/cli/src/active-workflow-manager.ts:436-442 | an interleaving changes each workflow by its own updates only |
| `Startup.OneAttempt` | packages/cli/src/active-workflow-manager.ts:447-485 | the same for a single activation |
| `TriggerOwnership.StepInv` | packages/cli/src/scaling/multi-main-setup.ee.ts:71-130 | every step keeps: followers hold only explained triggers, adds that will register belong to leaders, the key holder leads; a leader becomes stale only when its key expires, until its next check |
| `TriggerOwnership.MemoryFrame` | packages/cli/src/active-workflow-manager.ts:493-602 | which event changes what an instance has in memory, how, and that no other does |
| `TriggerOwnership.SingleOwnerOverRuns` | packages/cli/src/active-workflow-manager.ts:493-502 | in every reachable state, those in the middle of a stepdown included, triggers are in memory on leaders only and on one instance only, except on a stale leader, after an add that a stepdown overlapped, or where a stepdown has not closed them |
| `TriggerOwnership.MarksExplained` | packages/cli/src/active-workflow-manager.ts:539-596 | the exceptions are told by the run: an add counts as overlapped only if its instance stepped down while it was under way, and a workflow as stray only if such an add, begun as a leader, wrote it or a stepdown did not close it |
| `TriggerOwnership.AtomicSingleOwner` | packages/cli/src/active-workflow-manager.ts:976-978 | with handlers that run to completion triggers are on leaders only, and with no stale leader no workflow is live on two instances |
| `TriggerOwnership.AtomicLeavesNoTrace` | packages/cli/src/active-workflow-manager.ts:493-502 | with such handlers there is never an overlapped add or a stray workflow |
| `TriggerOwnership.TwoOwnersAfterExpiry` | packages/cli/src/scaling/multi-main-setup.ee.ts:71-130 | a run in which the key expires, a second instance takes over and both run the same workflow |
| `ActivationCommands.RefinesSingleMain` | packages/cli/src/active-workflow-manager.ts:646-885 | with a stable leader, commands handled one at a time, activations and deactivations that work, and no trigger errors, the memory of a leader that has caught up is that of a single main instance making the same calls, with one display command per handled command and no add command published twice |
| `ActivationCommands.MemoryOfExactly` | packages/cli/src/active-workflow-manager.ts:525-870 | a single main instance has a workflow in memory if and only if it has triggers or pollers and was activated and not deactivated after that |
| `ActivationCommands.LeaderRunsExactly` | packages/cli/src/active-workflow-manager.ts:646-885 | so does the leader that has caught up, over the calls issued on any instance |
| `ActivationCommands.StepFrame` | packages/cli/src/active-workflow-manager.ts:370-885 | no step touches another workflow, on any instance, and none touches another instance |
| `ActivationCommands.IssueInv` | packages/cli/src/active-workflow-manager.ts:533-540 | a call on any instance publishes one command and changes no memory |
| `ActivationCommands.HandledInv` | packages/cli/src/active-workflow-manager.ts:646-676 | handling a command on the leader is the call on a single instance, followed by one display command |
| `ActivationCommands.DeliverToLeaderInv` | packages/cli/src/active-workflow-manager.ts:646-885 | whatever the leader takes delivery of, its memory stays that of a single instance that made the calls handled so far |
| `ActivationCommands.DeliverElsewhereInv` | packages/cli/src/scaling/pubsub/pubsub.registry.ts:27-33 | a follower ignores the commands meant for the leader |
| `ActivationCommands.ComesBackExactly` | packages/cli/src/active-workflow-manager.ts:370-885 | with instances past start-up and a stable leader: some run, from any state on, in which a deactivation comes first and nobody activates the workflow, ends with the leader past the removal and the workflow in its memory, if and only if at the deactivation a retry timer for it was running, or the leader was activating it or had yet to handle a command to, or a trigger of it was open or about to be on some instance |
| `ActivationCommands.StaysAway` | packages/cli/src/active-workflow-manager.ts:873-885 | over every run that begins with a deactivation and has no activation, a workflow that cannot return at the start is, at every position, neither on its way back nor in the memory of a leader past the removal |
| `ActivationCommands.AwayKept` | packages/cli/src/active-workflow-manager.ts:873-885 | staying away survives every step but an activation: trigger errors, closings and activations that fail, and activations overtaken by other commands included |
| `ActivationCommands.BringsBack` | packages/cli/src/active-workflow-manager.ts:370-794 | with any of the three conditions, a run that brings the workflow back |
| `ActivationCommands.TimerBringsBack` | packages/cli/src/active-workflow-manager.ts:761-794 | a running timer fires, and the leader handles the command it publishes |
| `ActivationCommands.ErrorBringsBack` | packages/cli/src/active-workflow-manager.ts:370-394 | an open trigger reports an error before it is closed, which sets such a timer |
| `ActivationCommands.OvertakenBringsBack` | packages/cli/src/scaling/pubsub/pubsub.registry.ts:27-33 | the removal overtakes an activation under way on the leader, since handlers are not awaited |

## Left out

- Credential hierarchies with a cycle: the source recurses without end on them, so the two walks require their absence; `CredentialTypes.EndsOnlyWhenGrounded` shows that nothing weaker would do.
- Known and loaded `extends` lists that disagree: one hierarchy serves both walks in `CredentialProperties.CollectsFromParentTypes`.
- The update in place of the first argument of `mergeNodeProperties` and aliasing of property objects: the merged list is returned as a value.
- Authentication given as a function, resolution of expressions, encryption, overwrites and database updates of credentials: resolution is an arbitrary function on strings.
- `executionData`, `workflowExecution`, `httpResponse`, streaming and the closing of responses, since none of them affects table, promises or capacity.
- The contents of a result or of a response: a settled promise carries a run number at most.
- The polling loop at the end of `shutdown`: the model says what is left in the table, and when that is nothing.
- Enqueueing of an execution while `removeAll` is between two queues: the call is synchronous in the source and one step here.
- Queue objects: `ConcurrencyControl.Service` keeps its queues as values, so sharing of a queue between callers is not captured; the class `ConcurrencyQueue.ConcurrencyQueue` has the fields in place.
- Telemetry, logging, the reports on reaching the limit and the events a queue emits.
- Webhooks.WebhookService.StoreWebhook: replaces a taken row as a whole, whereas an upsert keeps columns that the new webhook leaves undefined.
- Webhook columns other than workflow, node, webhook id and path length.
- The webhook cache, the priority among several matching dynamic webhooks, and webhooks outside the table (test and waiting webhooks).
- The lookup of dynamic webhooks by id and remaining length, for which `WebhookPath.RequestHasOneMore` is only an identity of paths; a node without a full path stores a path that begins with its webhook id.
- What a webhook registers with an external service: only whether that works.
- Activation.ActivationManager.EmitError: deactivation after a trigger error is not awaited in the source; here it is either through at once or ends in a later step of its own, and closing one trigger after the other is not modelled within it.
- `TriggerOwnership.Step` of a stepdown: marking as follower and the first closings are one step, although closing is an awaited loop; closings still to come are separate removals, in any order.
- Identity of triggers beyond their position on a record: closing a trigger twice, which a second removal after a throw attempts, is one outcome among others.
- Retries of workflows that failed in an early batch, which may fire before start-up has ended: `Startup` ends with the last batch.
- Instances that start up, or take over, while others run: `ActivationCommands` begins after that.
- A retry's own updates in the order of its awaits: `Retries` separates the firing of the timer from the attempt, whose updates are one step.
- Trigger counts, error workflows, static data and push messages to the user interface: they feed back into none of the state here.
- `removeAll` of the manager: a loop of removals.
- The command and leadership handlers as methods of one object: `TriggerOwnership` and `ActivationCommands` are state machines over values, since what is proved of them is about several instances and their interleaving.
- Failing activations on command, with their error message and the reset of the active flag: `ActivationCommands.RefinesSingleMain` is about successful ones.
- Equivalence of several main instances and one with respect to webhooks: rows are removed by the caller at once and added by the leader later, so it does not hold.
- Loss or reordering of messages on the bus: every instance gets all commands in the order of publication.
- Time: the leader key expires at any moment, a timer fires at any moment after it was set, and only the delays themselves are modelled.
- The transport of commands, decorators, dependency injection, routing, the command line and the browser interface: no state that these properties depend on.
