# Lodge control core

Lodge is a hub that watches hosts through agents, opens and resolves events,
announces them, runs approved actions and deployments, and shows the result in
a browser. This project models its stateful core and proves what that core
promises over whole runs. `dafny verify dfyconfig.toml` checks everything.

**Event lifecycle.** `Telemetry` and `EventRules` say what one observation means
for each event key and evaluate all rules. `EventTable`, `Outbox` and `Database`
specify one commit; `SqliteStore` is the store that performs it. `Lifecycle` is
the machine of hub, operator, notifier, crashes, pruning and restarts, and
`LifecycleTheorems` states what holds over its runs: no recovery without
evidence, hysteresis, listener novelty, and the safety of the notification queue.
`Evidence` says what the rules read off the raw values, `CommitRows`, `CommitQueue`
and `LifecycleValues` what a commit writes into every row.
`Projection` builds an observation from an agent's report, and `ProjectionMeaning` says
which; `HostKeys` and `HostIds` say when two hosts can form one key text, and block
each other's events.

**Deployments and audit.** `DeploymentExecutor` takes the answers of every command,
probe and file commit as inputs, and `DeploymentOutcome` says what comes of them;
`DeploymentRuns` follows the state file over operations and crashes. `Audit` is the
operations table and `FleetLock` the two handlers that share one lock, interleaved
step by step.

**Proxy configuration.** `ConfigSyntax`, `ConfigLexing` and `ConfigErrors` are lexer and
block parser, `CaddyRoutes`, `CaddyScanner`, `CaddyMeaning` and `CaddyFound` the line scanner
and the tree it reads, `RouteMerge`, `RouteCanonical` and `RouteMeaning` the merge of
the routes.

**Event pages.** `EventPaging`, `PagingMeaning` and `EventPagingRuns` are the server's
frozen lists, `EventFetch`, `BrowserPage`, `BrowserEvents` and `BrowserTheorems` the browser's
loop and its protocol of sessions and request numbers.

**Login failures.** `SshSummary` counts, ranks and cuts; `SshMeaning` and `SshTheorems` say
what comes out and what that preserves.

## Conventions

- A SQL table is a sequence or map; a transaction is one step that commits or
  changes nothing. A method that performs a step is proved against a function
  or relation of the old state, and the theorems are about that specification.
- Times are integers, in nanoseconds. The position of a row
  stands for its random id.
- Library work is a parameter: URL and address parsing, lowering of case, the
  pattern that finds an address in a log message, the state codec. What is
  assumed about it is written in `LibraryOk` (projection, routes and logins) and
  `CodecOk`.
- Storage errors, command outcomes and network answers are arbitrary inputs or
  arbitrary choices.
- The Meaning, Evidence and Commit modules, `CaddyFound`, `ConfigLexing`, `ConfigErrors`
  and `DeploymentOutcome` say what is computed in terms of bare fields, constants
  and texts, independently of the functions that compute it.

## Where the code falls short of the plain statement

- Keys of different hosts that the hub can form share a text exactly when one id
  is nested in the other (`HostsCollideIffNested`, `DedupeKeyCollision`): it
  continues it with a colon and `workload`, with `workload:` and anything, or with
  `listener:tcp://[` or `listener:udp://[` and anything that does not begin with a
  zoned address other than the unspecified one. Then the unique index can refuse
  whole observations of one host because of the other's open events, and exactly
  then (`IndexRefusesIffNested`); the two hosts also share the cooldown of such a key.
- Renaming the service of a stack in the policy makes its state file unreadable,
  and with it the whole deployment state of the agent (`TextReadsBack`).
- Merging routes is idempotent only while every merged upstream list has at most
  sixteen entries (`IdempotentIffShort`, `IdempotentIffGroupsShort`,
  `SeventeenUpstreams`).
- The lexer drops the difference between a quoted brace and a bare one, so the
  round trip holds exactly for non-structural words (`ParseUndoesPrint`).
- A deployment reply that the handler rejects but whose previous release is
  malformed makes the audit row unfinishable until the next restart
  (`DeploymentFinishAccepted`, `RefusedDeploymentFinish`). The real client
  never hands over such a reply, so every finish it leads to is stored
  (`ClientFinishIsStored`).

## Model

| member | source | states |
|---|---|---|
| Projection.ProjectPorts | internal/hub/projection.go:72-90 | the loop over the ports of a service builds one endpoint for each key, the first that has it |
| Projection.ProjectServices | internal/hub/projection.go:47-90 | the loop over the services builds the workloads and their endpoints in order |
| Projection.ProjectObservation | internal/hub/projection.go:17-110 | a report becomes the specified observation if that passes the domain checks, and is refused otherwise |
| ProjectionMeaning.ProjectMeans | internal/domain/model.go:488-566 | a report is projected if and only if names, counts, protocols and ports are within bounds and keys do not repeat, each bound written out |
| ProjectionMeaning.EndpointMeans | internal/hub/projection.go:72-90 | the endpoint of a port: protocol without a trailing 6, key text, and wildcard exactly for what the address between its brackets says |
| Projection.ReceivedListener | internal/hub/projection.go:72-90 | a wildcard of an observation that reaches the store is a protocol, a publicly bound address and a port, written as one key |
| Projection.ReceivedWorkload | internal/domain/model.go:507-514 | a failing workload of such an observation has a valid key |
| HostKeys.ZoneDecides | internal/shared/exposure.go:25-62 | in a bind address with a zone mark the address that is classified lies in front of the mark, however the text goes on |
| HostKeys.HostsCollideIffNested | internal/storage/migrations.go:139-140 | two configured hosts can form keys with one text if and only if one is nested in the other |
| HostKeys.DedupeKeyInjective | internal/hub/event_rules.go:36-60 | the text of a key the hub can form determines host, rule family and argument, for all hosts of which neither is nested in the other |
| HostKeys.PlainHostsNeverNest | internal/hub/config.go:87-96 | host ids without colons are never nested |
| HostKeys.DedupeKeyCollision | internal/hub/event_rules.go:36-60 | two hosts, one nested in the other, and two workload keys the hub accepts, with one text |
| Telemetry.PrefixSelectsFamily | internal/hub/event_rules.go:36-233 | the prefix tests of the rules select exactly the keys of the resource, workload and listener families |
| Evidence.ReadingMeans | internal/hub/event_rules.go:36-233 | when an observation raises a key, proves its recovery or is silent about it, as if-and-only-if over the raw fields: thresholds, counters, warning texts, state words and wildcard endpoints written out |
| Evidence.MissingIffAbsent | internal/hub/event_rules.go:265-289 | when the telemetry of memory, disk and load counts as missing |
| Evidence.WorkloadMissingIff | internal/hub/event_rules.go:291-304 | the same for a workload, with Docker, systemd and process keys apart |
| Evidence.ListenerMissingIff | internal/hub/event_rules.go:306-311 | the same for listeners |
| Evidence.FailingIff | internal/hub/event_rules.go:350-353 | a workload is failing exactly when its state or health says so, ignoring case and blanks |
| Evidence.WildcardIff | internal/hub/event_rules.go:235-255 | a listener is a wildcard endpoint of an online observation |
| Evidence.CompleteIff | internal/hub/event_rules.go:306-311 | a collection is complete exactly when the host is online and no warning names services, Docker or sockets |
| EventRules.EvaluateEventSignals | internal/hub/event_rules.go:36-233 | signals exactly the keys that are raised, held, carried or novel, each once, with the signal the rules prescribe for it |
| EventRules.ResourceSignals | internal/hub/event_rules.go:65-134 | memory, disk and load: open and clear thresholds, carry-over when the reading is missing |
| EventRules.MemorySignals | internal/hub/event_rules.go:71-89 | the memory rule against its reading |
| EventRules.DiskSignals | internal/hub/event_rules.go:90-113 | the root-disk rule against its reading |
| EventRules.LoadSignals | internal/hub/event_rules.go:114-134 | the load rule against its reading |
| EventRules.SshSignals | internal/hub/event_rules.go:135-166 | the login-failure rule against total and top source |
| EventRules.WorkloadSignals | internal/hub/event_rules.go:167-193 | one signal for every failing workload, and carry-over for workloads whose telemetry is missing |
| EventRules.ListenerSignals | internal/hub/event_rules.go:194-231 | open listener events are carried or held, and a wildcard outside the baseline is signalled |
| EventRules.WildcardKeys | internal/hub/event_rules.go:235-255 | collects exactly the wildcard endpoints of an online observation |
| EventTable.ActiveByKeyIsOpen | internal/hub/event_rules.go:36-48 | the map of active events holds exactly the keys with an unresolved row, each mapped to such a row |
| EventTable.ReconcileKeepsTable | internal/storage/sqlite.go:568-656 | a commit leaves at most one unresolved row per key text, over all hosts, and every row valid |
| EventTable.IndexSeparatesKeys | internal/storage/migrations.go:139-140 | the unique index over key texts leaves at most one unresolved row per host and key |
| EventTable.OpenKeysAreSignals | internal/storage/sqlite.go:568-656 | after a commit the open keys of the host are the signalled keys; other hosts keep theirs |
| EventTable.AcknowledgeKeepsTable | internal/storage/sqlite.go:1035-1079 | acknowledging keeps the table valid and opens or closes nothing |
| EventTable.AcknowledgeMeans | internal/storage/sqlite.go:1035-1079 | an acknowledgement of an open row leaves it acknowledged at that time and every other row as it was; the refusals and their reasons |
| SqliteStore.ActiveIndex | internal/storage/sqlite.go:568-588 | indexes the unresolved rows of the host by key |
| SqliteStore.TakenIffClash | internal/storage/migrations.go:139-140 | in the middle of a commit the index refuses an insert if and only if another host had a row with that text open before the commit |
| SqliteStore.ApplySignals | internal/storage/sqlite.go:589-631 | updates or inserts one row per signal, or refuses an observation older than an open row or a key text that is taken |
| SqliteStore.ResolveStale | internal/storage/sqlite.go:632-654 | resolves each open row without a signal once, or refuses a recovery older than its acknowledgement |
| SqliteStore.ReconcileEventSignals | internal/storage/sqlite.go:568-656 | the whole transaction: refused exactly when some row refuses or a key text is taken by another host, else the table the specification describes, with inserted and resolved rows each exactly once |
| Database.SignalKeys | internal/hub/sqlite_store.go:102-121 | evaluation over stored state yields well-formed signals, exactly for the keys the rules emit |
| Database.SignalGoneIffCleared | internal/hub/event_rules.go:36-233 | the signal of an open event disappears exactly when the observation proves recovery |
| Database.CommitKeeps | internal/storage/sqlite.go:449-494 | one committed observation keeps events table and outbox consistent with each other |
| Database.AcknowledgeKeeps | internal/storage/sqlite.go:1035-1079 | an acknowledgement keeps events table and outbox consistent with each other |
| CommitRows.CriticalIff | internal/hub/event_rules.go:12-34 | which values make an event critical, written out |
| CommitRows.LatestIsNewest | internal/storage/sqlite.go:1361-1385 | the previous observation is the newest of the host, and of those the last stored |
| CommitRows.OpensIff | internal/hub/event_rules.go:36-233 | exactly the keys a commit opens: a condition that is reached and not open, or a listener new to an established baseline |
| CommitRows.CommitWritesRows | internal/storage/sqlite.go:568-656 | what a commit makes of each row: identity, severity from the observed values, times, recovery; and what an inserted row holds |
| CommitRows.CommitMeans | internal/storage/sqlite.go:568-656 | the whole events table after a commit: every old row updated, exactly the opened keys inserted, each once |
| CommitRows.BaselinesMean | internal/storage/sqlite.go:485-489 | a complete collection replaces the baseline of its host, and nothing else changes one |
| CommitRows.HistoryGrows | internal/storage/sqlite.go:1387-1425 | where one more observation is listed: behind the later ones and in front of all others |
| CommitRows.BackfillHostMeans | internal/hub/sqlite_store.go:209-240 | the baseline a restart gives a host of an arbitrary database, and that it touches nothing else |
| CommitRows.BackfillMeans | internal/hub/sqlite_store.go:209-240 | the same for every configured host, whatever the order |
| CommitQueue.CommitQueuesRows | internal/storage/notifications.go:44-114 | the queue after a commit, row by row: one pending opening for each new event and channel, due at the later of the observation and the latest delivery plus cooldown; for a recovered event a cancelled opening, one pending recovery or nothing; every other row as it was |
| SqliteStore.Store.constructor | internal/storage/migrations.go:124-140 | the tables start empty |
| SqliteStore.Store.Update | internal/hub/sqlite_store.go:90-137 | evaluate and record in one critical section: all of the commit or none of it, refused exactly on a storage error, duplicate channels, a refusing row or a taken key text; the rows, queue rows and baselines it leaves, over raw values |
| SqliteStore.Store.CurrentSignals | internal/hub/sqlite_store.go:102-121 | reads previous observation, active events and baseline and evaluates them |
| SqliteStore.Store.LatestObservation | internal/storage/sqlite.go:1361-1385 | the newest stored observation of a host |
| SqliteStore.Store.ActiveEvents | internal/storage/sqlite.go:659-666 | the open events of a host by key |
| SqliteStore.Store.AcknowledgeEvent | internal/storage/sqlite.go:1035-1079 | accepts, repeats or refuses an acknowledgement; an accepted one writes state and time of that row and nothing else |
| SqliteStore.Store.PruneObservations | internal/storage/sqlite.go:1656-1662 | keeps exactly the observations from the cut-off on, in order |
| SqliteStore.Store.BackfillListenerBaselines | internal/hub/sqlite_store.go:209-240 | gives a host without an established baseline the migrated keys or those of the newest complete one of its last thousand observations |
| SqliteStore.NewestComplete | internal/hub/sqlite_store.go:229-237 | the first complete observation of a history |
| Database.History | internal/storage/sqlite.go:1387-1425 | the observations of one host, all of them, newest first |
| Outbox.AppendKeeps | internal/storage/notifications.go:44-114 | a new row goes in only where event, transition and channel have none, and the queue stays consistent |
| Outbox.CancelKeeps | internal/storage/notifications.go:76-90 | cancelling an unsent opening keeps every recovery message backed |
| Outbox.EnqueueOneKeeps | internal/storage/notifications.go:44-114 | one transition on one channel keeps the queue invariant and only moves rows forward |
| Outbox.EnqueueKeeps | internal/storage/notifications.go:44-114 | the same for all transitions of a commit |
| Outbox.CancelledStaysSilent | internal/storage/notifications.go:76-107 | a cancelled opening never has a recovery message |
| Outbox.JobsOfDistinct | internal/storage/notifications.go:44-60 | one commit asks for each event and channel at most once |
| SqliteStore.EnqueueForPolicies | internal/storage/notifications.go:44-114 | one transition for every channel, as the queue specification says |
| SqliteStore.EnqueueTransitions | internal/storage/notifications.go:44-114 | all transitions of one kind, as the queue specification says |
| SqliteStore.EnqueueCommit | internal/storage/notifications.go:44-114 | openings then recoveries of one commit |
| SqliteStore.FindFirstDue | internal/storage/notifications.go:118-150 | the due row with the earliest next attempt, then the lowest id |
| SqliteStore.Store.ClaimEventNotification | internal/storage/notifications.go:118-178 | leases the first due row, counts the attempt, and changes no other row |
| SqliteStore.Store.MarkEventNotificationDelivered | internal/storage/notifications.go:180-199 | only a leased row becomes delivered |
| SqliteStore.Store.RetryEventNotification | internal/storage/notifications.go:201-229 | only a leased row goes back to pending or becomes failed |
| Webhook.DeliverNext | internal/hub/webhook.go:115-163 | one delivery: claims the overdue row of lowest next attempt and id, and leaves it as the answer demands, every other row untouched |
| Webhook.FinishFailure | internal/hub/webhook.go:165-177 | schedules the retry or fails the row for good |
| Webhook.ReportedMeans | internal/hub/webhook.go:115-199 | what an answer leaves of the claimed row: delivered for 2xx; retried for no connection, 408, 425, 429 and 5xx before the eighth attempt, after 5, 30, 120, 600, 1800 and then 3600 seconds; failed otherwise |
| Webhook.ClaimMeans | internal/storage/notifications.go:118-178 | a claim leases the row for thirty seconds and counts the attempt |
| LifecycleInvariants.RaisedLastSnoc | internal/hub/event_rules.go:36-233 | how one more observation changes whether the last word on a key was "raised" |
| LifecycleInvariants.ObserveFollowsHistory | internal/hub/sqlite_store.go:90-137 | a commit keeps open events and baselines in step with the history |
| LifecycleInvariants.BackfillIsIdle | internal/hub/sqlite_store.go:209-240 | after any run a restart changes no stored baseline |
| LifecycleInvariants.ClaimKeeps | internal/storage/notifications.go:118-178 | a claim stays within the attempt budget |
| LifecycleInvariants.ReportKeeps | internal/hub/webhook.go:115-177 | a report stays within the attempt budget |
| LifecycleInvariants.StepKeeps | internal/hub/sqlite_store.go:90-137 | every step of hub, operator, notifier, crash, pruning and restart keeps the joint invariant |
| LifecycleInvariants.RunKeeps | internal/hub/sqlite_store.go:90-137 | the joint invariant of events, baselines and outbox holds in every reachable state |
| LifecycleTheorems.ClearedMeansEvidence | internal/hub/event_rules.go:36-233 | what proves recovery: an online observation with the telemetry of the category present and its value below the clear threshold, or the failed workload or listener absent, over raw fields |
| LifecycleTheorems.RecoveryIffEvidence | internal/storage/sqlite.go:632-654 | in one step an open event recovers if and only if the step is a committed observation that proves it |
| LifecycleTheorems.RowsForwardOverRun | internal/storage/sqlite.go:568-656 | over any run id, key, first-seen time and acknowledgement survive and a resolved row never changes |
| LifecycleTheorems.ResolvedHasEvidence | internal/hub/event_rules.go:36-233 | no recovery without evidence: behind every resolved row stands the committed online observation whose raw values proved it, at the recorded time |
| LifecycleTheorems.OpenIffRaisedLast | internal/hub/event_rules.go:12-193 | over any run a non-listener event is open if and only if some observation raised it and none since cleared it |
| LifecycleTheorems.MemoryHysteresis | internal/hub/event_rules.go:12-89 | the same for memory with bytes used and total and the thresholds 85 and 80 written out, skipping offline and missing samples |
| LifecycleTheorems.ListenerOpensExactly | internal/hub/event_rules.go:194-231 | a listener event opens if and only if a baseline exists, the key is present, not open and not in the baseline, and the collection is partial or its predecessor was online |
| LifecycleTheorems.BaselineIsLastComplete | internal/storage/sqlite.go:485-489 | the stored baseline is the wildcard keys of the last committed complete online observation |
| LifecycleTheorems.LastCompleteMeans | internal/storage/sqlite.go:485-489 | which observation of a history that is |
| LifecycleTheorems.Birth | internal/storage/sqlite.go:589-631 | every row was inserted by one committed observation at which its key was not open |
| LifecycleTheorems.TwinsCannotBeBorn | internal/storage/sqlite.go:589-631 | two rows inserted by one commit never share a key |
| LifecycleTheorems.RecoveryBetweenOpenings | internal/hub/event_rules.go:194-231 | between two openings of one key a committed observation proves its recovery |
| LifecycleTheorems.ListenerAwayBetweenOpenings | internal/hub/event_rules.go:194-231 | between two openings of one listener the host had a complete online observation without it |
| LifecycleTheorems.QueueEvolves | internal/storage/notifications.go:44-229 | over any run rows keep their identity, attempts never fall and terminal rows never change |
| LifecycleTheorems.RecoveryMessagesAreBacked | internal/storage/notifications.go:76-107 | a recovery row has an opening that was attempted and never cancelled, and a resolved event |
| LifecycleTheorems.BackingIsForGood | internal/storage/notifications.go:76-114 | the opening behind a recovery row stays uncancelled for the rest of the run |
| LifecycleTheorems.QueueRowsAreUniqueAndFinal | internal/storage/notifications.go:44-229 | one row per event, transition and channel; delivered, cancelled and failed rows are final |
| LifecycleTheorems.AttemptsAreClaims | internal/storage/notifications.go:118-178 | over any run the attempts a row records are the number of claims of it |
| LifecycleTheorems.ClaimsAreBounded | internal/hub/webhook.go:115-177 | over any run the claims of a row number at most eight plus one per lost lease, and none precedes its not-before time |
| LifecycleTheorems.EnqueueWaits | internal/storage/notifications.go:48-75 | a new opening waits out the cooldown from every delivery of its key text and channel already in the queue |
| LifecycleTheorems.CooldownIsRespected | internal/storage/notifications.go:48-75 | over a run such an opening is delivered at least one cooldown later |
| LifecycleTheorems.OpenEventsAreUnique | internal/storage/migrations.go:139-140 | in every reachable state one open row per key text over all hosts, hence one per host and key, and the kind matches the key family |
| LifecycleValues.StepRow | internal/storage/sqlite.go:568-656 | what one step of a run makes of each row: values of the observation, an acknowledgement, or nothing |
| LifecycleValues.AcknowledgeStep | internal/storage/sqlite.go:1035-1079 | what an acknowledgement step makes of it |
| LifecycleValues.OpenRowsAreCurrent | internal/storage/sqlite.go:589-631 | over any run an open row was last observed at the last commit of its host, and has the severity of the last telemetry of its category |
| HostIds.RowsFormable | internal/hub/projection.go:17-110 | over any run of projected observations every stored event has a key the hub can form |
| HostIds.UnnestedNeverClash | internal/storage/migrations.go:139-140 | over any such run the index never blocks a key of a host because of a host it is not nested with |
| HostIds.RefusedByOwnRowsOnly | internal/storage/sqlite.go:568-656 | without nesting the commit of a projected observation is refused if and only if a row of its own host refuses it |
| HostIds.IndexRefusesIffNested | internal/storage/migrations.go:139-140 | some reachable state has the index refuse a projected observation of one of two configured hosts because of the other if and only if one is nested in the other |
| DeploymentPolicy.DeploymentDefinitions | internal/agent/deployment_policy.go:222-262 | the listing loops compute the specified list |
| DeploymentPolicy.ListedExactly | internal/agent/deployment_policy.go:222-262 | offered are exactly the releases that do not run, plus a rollback when there is something to roll back to |
| DeploymentPolicy.ListedMeans | internal/agent/deployment_policy.go:222-269 | the same with ids, titles, releases, description and confirmation of each definition written out |
| DeploymentPolicy.ListedDefinitionsAccepted | internal/hub/deployment_client.go:145-176 | every listed definition passes the validators of Agent and Hub |
| DeploymentPolicy.AcceptedMeans | internal/hub/deployment_client.go:145-176 | what an accepted definition says, text by text; both validators accept the same ones |
| DeploymentPolicy.ActionIdInjective | internal/agent/deployment_policy.go:264-269 | the action id determines kind and stack, and the release of a deployment |
| DeploymentPolicy.ListedOnce | internal/hub/deployment_client.go:128-143 | no two listed definitions share an id |
| DeploymentExecutor.Machine.constructor | internal/agent/deployment_executor_linux.go:30-45 | starts from the stored state with nothing done |
| DeploymentExecutor.Machine.ExecuteApprovedDeployment | internal/agent/deployment_executor_linux.go:30-112 | for every answer of every command, probe and commit: the typed result with the error of the first step that failed, the releases that were put up and the state file; and the result agrees with the file, the last applied release and health |
| DeploymentExecutor.Machine.ReplaceRunningRelease | internal/agent/deployment_executor_linux.go:84-112 | the branch that changes the service: success, performed rollback or failed rollback, each exactly on its answers |
| DeploymentExecutor.Machine.ConfirmRunningRelease | internal/agent/deployment_executor_linux.go:63-82 | the same-digest branch never applies anything; only its commit may change the file |
| DeploymentExecutor.Machine.RollbackFailedDeployment | internal/agent/deployment_executor_linux.go:126-166 | tries the earlier release, and claims the rollback exactly when every step of it passed |
| DeploymentExecutor.Machine.RestoreRelease | internal/agent/deployment_executor_linux.go:148-161 | the steps of a rollback before its commit |
| DeploymentExecutor.Machine.VerifyDeploymentHealth | internal/agent/deployment_executor_linux.go:230-256 | healthy exactly when some poll before the deadline passes |
| DeploymentExecutor.Machine.ApplyDeploymentOverride | internal/agent/deployment_executor_linux.go:225-228 | one compose run, which may change the service even when it fails |
| DeploymentExecutor.Machine.DiscoverCurrentRelease | internal/agent/deployment_executor_linux.go:195-223 | names the running release as external, or nothing |
| DeploymentExecutor.Machine.Commit | internal/agent/deployment_policy_linux.go:246-256 | a failing commit may come before or after the rename took effect |
| DeploymentExecutor.Machine.TryRelease | internal/agent/deployment_executor_linux.go:84-112 | the forward path up to the first step that fails |
| DeploymentExecutor.Machine.ValidateComposeService | internal/agent/deployment_executor_linux.go:168-179 | the service is among the listed ones |
| DeploymentExecutor.Machine.EnsureImmutableImage | internal/agent/deployment_executor_linux.go:181-193 | the image is present, or pulled and then present |
| DeploymentExecutor.ReplacedIsHonest | internal/agent/deployment_executor_linux.go:84-112 | the result of that branch agrees with state file, last applied release and health |
| DeploymentExecutor.ReplacedAnswers | internal/agent/deployment_executor_linux.go:84-166 | its outcome in terms of the answers alone |
| DeploymentExecutor.AfterConfirmation | internal/agent/deployment_executor_linux.go:96-112 | apply, passing check and commit leave the service confirmed with that release last applied |
| DeploymentOutcome.OutcomeMeans | internal/agent/deployment_executor_linux.go:30-166 | a deployment succeeds if and only if every step passes, and reports a rollback if and only if it failed after the service may have changed and every step of the recovery passes; steps, polls and status codes written out |
| DeploymentRuns.DecodeIffEncoded | internal/agent/deployment_policy_linux.go:144-211 | decoding accepts exactly the encodings of valid states, and returns the state |
| DeploymentRuns.ApprovedDefinition | internal/agent/deployment_policy_linux.go:51-86 | what an approved definition says about the stored state |
| DeploymentRuns.PrefixIsCrash | internal/agent/deployment_executor_linux.go:30-112 | dying after any effect of a run is covered as well |
| DeploymentRuns.PerformingKeepsStateValid | internal/agent/deployment_policy_linux.go:170-188 | every operation, finished or crashed, leaves a valid state in which current and previous digest differ |
| DeploymentRuns.FileStaysValid | internal/agent/deployment_policy_linux.go:144-258 | the same over any sequence of operations and crashes |
| DeploymentRuns.TextReadsBack | internal/agent/deployment_policy_linux.go:124-168 | after any sequence of operations and crashes the stored text reads back as the state, unless the policy has renamed the service since it was written, and then it is refused |
| DeploymentRuns.TwoRollbacksRestore | internal/agent/deployment_executor_linux.go:30-112 | two successful rollbacks in a row restore current and previous |
| DeploymentRuns.HonestResultShape | internal/agent/deployment_executor_linux.go:114-124 | the forms a result can take |
| DeploymentRuns.HonestResultsAccepted | internal/hub/deployment_client.go:178-198 | every result the executor produces passes the validators of Agent and Hub |
| Audit.CreateKeepsRows | internal/storage/sqlite.go:1163-1179 | creating keeps every stored row valid and moves rows only forward |
| Audit.StartKeepsRows | internal/storage/sqlite.go:1181-1215 | so does starting |
| Audit.FinishKeepsRows | internal/storage/sqlite.go:1217-1259 | so does finishing |
| Audit.RestartClosesRows | internal/storage/sqlite.go:1263-1280 | restart recovery fails every open row with its category and a time not before its start, leaves finished rows untouched, and is idempotent |
| Audit.AuditStore.constructor | internal/storage/migrations.go:143-155 | the operations table starts without rows |
| Audit.AuditStore.CreateOperation | internal/storage/sqlite.go:1163-1179 | inserts a valid requested row with a new id, or refuses and changes nothing |
| Audit.AuditStore.StartOperation | internal/storage/sqlite.go:1181-1215 | moves a requested row to running, or refuses and changes nothing |
| Audit.AuditStore.FinishOperation | internal/storage/sqlite.go:1217-1259 | moves a running row to its final state, or refuses and changes nothing |
| Audit.AuditStore.FailInterruptedOperations | internal/storage/sqlite.go:1263-1280 | closes exactly the open rows and counts them |
| Audit.CloseRows | internal/storage/sqlite.go:1263-1280 | the update of all open rows |
| Audit.FinishAccepted | internal/domain/model.go:343-427 | a finish at or after the start is stored if and only if its own fields have the right shape |
| Audit.ActionFinishAccepted | internal/hub/operation_handlers.go:152-177 | no finish of an action is ever refused; the row says succeeded if and only if the valid result is ok, with its summary and error, or the category of the client |
| Audit.DeploymentFinishAccepted | internal/hub/deployment_handlers.go:159-192 | a deployment finish is stored if and only if a reply that the handler rejects carries no malformed previous release |
| Audit.ClientFinishIsStored | internal/hub/deployment_client.go:75-99 | whatever the request to the agent comes to, the finish is stored; the row says succeeded, rolled back or failed exactly as an accepted result says, with its summary, error and releases, and failed with the category of the client otherwise |
| Audit.RefusedDeploymentFinish | internal/hub/deployment_handlers.go:159-192 | a reply that leaves the row running: the condition above is needed of the handler alone |
| FleetLock.StepKeeps | internal/hub/deployment_handlers.go:111-157 | every step of every request keeps lock ownership, audit rows and POST counts in order |
| FleetLock.AtMostOnePostInFlight | internal/hub/deployment_handlers.go:111-157 | two requests never have a remote POST in flight at once, and one in flight holds the lock |
| FleetLock.PostsAreAuditedAndSingle | internal/hub/operation_handlers.go:117-160 | a POST goes out only for a row stored as running, and once per operation, restarts included |
| FleetLock.LockReleasedOnce | internal/hub/deployment_handlers.go:111-157 | each acquisition is released once, by handler or background finalizer and never both; the lock is taken exactly when one of them holds it |
| FleetLock.AuditRowsAreFinal | internal/storage/sqlite.go:1163-1280 | over any run rows stay valid and finished rows never change |
| FleetLock.UndisturbedRequest | internal/hub/operation_handlers.go:117-177 | a request that finds the lock free, with a new operation valid at every stage, runs to its end: one POST, the finish in its row, the lock free |
| FleetLock.SecondIsTurnedAway | internal/hub/deployment_handlers.go:111-124 | a request that finds the lock taken is turned away and leaves no trace |
| TextMeaning.TrimMeans | internal/agent/proxy_routes.go:144-176 | trimming takes white space off both ends and nothing else |
| TextMeaning.SplitMeans | internal/agent/proxy_routes.go:361-373 | joining undoes splitting, and no part holds the separator |
| ConfigSyntax.LexConfig | internal/agent/proxy_routes.go:588-633 | the loop computes the specified tokens |
| ConfigSyntax.LexFirst | internal/agent/proxy_routes.go:588-633 | one round of the loop |
| ConfigSyntax.ReadQuoted | internal/agent/proxy_routes.go:606-622 | a quoted word, its escapes and its end |
| ConfigSyntax.LexUndoesText | internal/agent/proxy_routes.go:588-633 | words rendered bare or quoted and escaped, with marks and comments between them, are lexed back unchanged |
| ConfigLexing.LexIffDivided | internal/agent/proxy_routes.go:588-633 | for every text: its tokens are those of the one way to divide it into blanks, marks, comments, quoted words and bare words |
| ConfigSyntax.ParseConfigNodes | internal/agent/proxy_routes.go:635-674 | the recursive loop over a position computes the specified parse and stops where it says |
| ConfigSyntax.ParseConfigNode | internal/agent/proxy_routes.go:644-668 | one directive or one block |
| ConfigSyntax.ReadHead | internal/agent/proxy_routes.go:644-652 | a directive name and its arguments |
| ConfigSyntax.GrammarParses | internal/agent/proxy_routes.go:635-674 | every text of the grammar parses to its meaning, at any nesting and before any continuation |
| ConfigSyntax.ParsedIsGrammar | internal/agent/proxy_routes.go:635-674 | whatever is accepted is a text of the grammar, consumed to its end or closing brace |
| ConfigSyntax.AcceptsExactlyGrammar | internal/agent/proxy_routes.go:635-674 | a token list is accepted if and only if the grammar derives it, consumed whole, and every derivation has the parsed meaning |
| ConfigErrors.RejectionMeans | internal/agent/proxy_routes.go:635-674 | which error a rejected text gets: an unexpected brace if and only if no continuation is accepted, an unterminated block if and only if closing braces alone complete it, an unterminated directive otherwise |
| ConfigSyntax.ParseUndoesPrint | internal/agent/proxy_routes.go:635-674 | parsing a printed tree returns it if and only if no name is a closing brace and no argument is structural |
| ConfigSyntax.TextRoundTrip | internal/agent/proxy_routes.go:588-674 | the same from text through lexer and parser |
| CaddyMeaning.ScanMeansProxies | internal/agent/proxy_routes.go:345-434 | scanning a tree inside a site adds exactly its proxies and restores depth and paths |
| CaddyMeaning.OutsideIgnores | internal/agent/proxy_routes.go:361-374 | blocks below a top-level block without an address contribute nothing |
| CaddyMeaning.TopLevelMeans | internal/agent/proxy_routes.go:345-434 | a top-level block is a site with its proxies, or one site route per address if it has none |
| CaddyMeaning.ScanMeansTree | internal/agent/proxy_routes.go:345-434 | scanning the lines of a tree yields the recursive meaning |
| CaddyMeaning.FileMeansTree | internal/agent/proxy_routes.go:321-439 | a file whose lines lex to a tree gives the merge of the tree's meaning |
| CaddyMeaning.PrintedTreeMeans | internal/agent/proxy_routes.go:321-439 | the same for the printed form of any tree, words quoted |
| CaddyFound.ProxyLineMeans | internal/agent/proxy_routes.go:390-420 | the routes of one proxy line: one per address of the site, at its own leading path else the inherited one, with its valid upstreams |
| CaddyFound.UpstreamsMean | internal/agent/proxy_routes.go:401-411 | which words of the line are upstreams |
| CaddyFound.AddressesMean | internal/agent/proxy_routes.go:361-373 | the addresses of a site header: its comma-separated parts that parse |
| CaddyFound.InnerPathMeans | internal/agent/proxy_routes.go:382-389 | the path a handle or route block gives: its first path matcher |
| CaddyFound.ProxyIsFound | internal/agent/proxy_routes.go:345-434 | every proxy of the meaning stands on some line below the site, at the path that the nearest enclosing block with one gives it |
| CaddyFound.TrailIsFound | internal/agent/proxy_routes.go:345-434 | and every such line yields its proxies |
| CaddyFound.SiteMeans | internal/agent/proxy_routes.go:345-434 | a site yields its proxies, or one site route per address if it has none |
| CaddyFound.SiteIsComplete | internal/agent/proxy_routes.go:345-434 | whatever such a line or a site without proxies yields is in its meaning |
| CaddyScanner.Scanner.constructor | internal/agent/proxy_routes.go:325-330 | initial variables of the scan |
| CaddyScanner.Scanner.Finish | internal/agent/proxy_routes.go:331-344 | closing a site: site routes if it had no proxy, and a clean slate |
| CaddyScanner.Scanner.CloseBrace | internal/agent/proxy_routes.go:351-356 | one closing brace |
| CaddyScanner.Scanner.Line | internal/agent/proxy_routes.go:350-433 | one line, as the specification says |
| CaddyScanner.Scanner.SiteAddresses | internal/agent/proxy_routes.go:361-373 | the addresses of a site header |
| CaddyScanner.Scanner.SiteDirective | internal/agent/proxy_routes.go:374-421 | path matchers and proxies of one line |
| CaddyScanner.Scanner.ReverseProxy | internal/agent/proxy_routes.go:390-420 | one proxy route per address at its own or inherited path |
| CaddyScanner.Scanner.CountBraces | internal/agent/proxy_routes.go:422-433 | depth after the braces of a line |
| CaddyScanner.InnermostPath | internal/agent/proxy_routes.go:376-381 | the nearest enclosing path |
| CaddyScanner.ParseCaddyRoutes | internal/agent/proxy_routes.go:321-439 | the whole parser: nothing over the size limit, else the merged routes |
| RouteMerge.NormalizeProxyRoute | internal/agent/proxy_routes.go:144-176 | trims, defaults, validates and caps one route |
| RouteMerge.MergeProxyRoutes | internal/agent/proxy_routes.go:115-142 | the merging loops compute the specified list |
| RouteMeaning.NormalizeMeans | internal/agent/proxy_routes.go:144-176 | which routes are accepted and what they become, field by field: trimmed, lowered and defaulted, names and paths checked character by character, the first sixteen upstreams in order |
| RouteMeaning.MergeMeans | internal/agent/proxy_routes.go:115-142 | a merged route stands for all entries of its place: the strongest kind among them and exactly their upstreams; every entry is merged into one |
| RouteMeaning.LessMeans | internal/agent/proxy_routes.go:115-142 | the order of texts: at the first difference, else by length |
| StringOrder.UniqueSorted | internal/agent/proxy_routes.go:300-313 | the non-empty values, sorted, without repetition |
| StringOrder.SortedUnique | internal/agent/proxy_routes.go:300-313 | a sorted list without repetition is determined by its elements |
| RouteCanonical.KeyInjective | internal/agent/proxy_routes.go:122-123 | two normalised routes share a merge key if and only if workload, scheme, host, port and path agree |
| RouteCanonical.MergeIsCanonical | internal/agent/proxy_routes.go:115-142 | the result is strictly sorted by key, one route per key, with the strongest kind and the sorted union of the upstreams of its group |
| RouteCanonical.CanonicalUnique | internal/agent/proxy_routes.go:115-142 | a set of routes has only one such list |
| RouteCanonical.OrderDoesNotMatter | internal/agent/proxy_routes.go:115-142 | neither order nor repetition of the input shows in the result |
| RouteCanonical.NormalizeAgain | internal/agent/proxy_routes.go:144-176 | a merged route passes normalising unchanged but for the cap of sixteen upstreams |
| RouteCanonical.MergeAgain | internal/agent/proxy_routes.go:115-176 | merging a merged list only cuts each upstream list to sixteen |
| RouteCanonical.IdempotentIffShort | internal/agent/proxy_routes.go:115-176 | merging is idempotent if and only if every merged upstream list has at most sixteen entries |
| RouteCanonical.IdempotentIffGroupsShort | internal/agent/proxy_routes.go:115-176 | the same read off the input: if and only if the entries of no key bring more than sixteen different upstreams together |
| RouteCanonical.SeventeenUpstreams | internal/agent/proxy_routes.go:115-176 | with any library that keeps seventeen different upstreams, an input on which it is not |
| EventPaging.SnapshotCache.constructor | internal/storage/sqlite.go:49-89 | an empty cache |
| EventPaging.SnapshotCache.PutEventSnapshot | internal/storage/sqlite.go:875-908 | drops expired snapshots, then only as many of the oldest as needed, and never exceeds 64 |
| EventPaging.SnapshotCache.DropExpired | internal/storage/sqlite.go:890-894 | keeps exactly the snapshots within their hour |
| EventPaging.Oldest | internal/storage/sqlite.go:895-905 | a snapshot none is older than |
| EventPaging.SnapshotCache.GetEventSnapshot | internal/storage/sqlite.go:910-919 | returns a live snapshot, forgets an expired one |
| EventPaging.SnapshotCache.ListEventPage | internal/storage/sqlite.go:739-810 | every check in order, then the page cut from the frozen ids |
| EventPaging.PageOf | internal/storage/sqlite.go:780-809 | the slice behind the cursor or offset |
| EventPaging.FindId | internal/storage/sqlite.go:780-790 | position of the cursor |
| EventPaging.LoadEventsByIds | internal/storage/sqlite.go:836-861 | the stored events among the ids, in their order |
| EventPaging.ListingIsDistinct | internal/storage/sqlite.go:812-834 | the listing order never repeats an id |
| PagingMeaning.ListingMeans | internal/storage/sqlite.go:812-834 | a listing holds exactly the rows asked for: open before resolved, active first, then latest observed, then larger ids |
| PagingMeaning.ServedIff | internal/storage/sqlite.go:739-810 | which requests get a page, with ranges, id form, hour of life and filter written out |
| PagingMeaning.PageMeans | internal/storage/sqlite.go:780-810 | which page: the stored rows of up to the limit behind the cursor or at the offset, and whether more follow |
| PagingMeaning.RefusalMeans | internal/storage/sqlite.go:739-780 | which error each other request gets |
| PagingMeaning.StoredMeans | internal/storage/sqlite.go:836-861 | ids without a row are left out, the others keep their order |
| PagingMeaning.CacheMeans | internal/storage/sqlite.go:875-908 | the cache after a new snapshot: it, what is at most an hour old, and of that only the oldest given up, to keep to 64 |
| EventPagingRuns.CacheIsBounded | internal/storage/sqlite.go:875-908 | over any run at most 64 snapshots |
| EventPagingRuns.StepKeeps | internal/storage/sqlite.go:739-919 | cached snapshots agree with what was frozen, whatever else happens |
| EventPagingRuns.PagingIsLossless | internal/storage/sqlite.go:739-810 | following cursors through one snapshot, with any limits and any changes between requests, delivers the frozen list in order without gap or repeat |
| EventFetch.CollectPage | frontend/src/app.ts:1329-1336 | adds the events not yet collected |
| EventFetch.RequestPage | frontend/src/app.ts:1321-1336 | one request of the loop: the next slice of the frozen list, or a failure for a lost reply, a refused filter or an expired snapshot |
| EventFetch.FetchEventPages | frontend/src/app.ts:1313-1344 | the loop takes a snapshot and, whatever table, cache and clock each request meets, ends with a prefix of that snapshot of at least the wanted length or all of it; it fails only for the reasons above |
| BrowserTheorems.StepKeeps | frontend/src/app.ts:250-454 | every step of every call keeps the event list in order |
| BrowserTheorems.ShownIsPrefixOfOneSnapshot | frontend/src/app.ts:1346-1406 | under every interleaving the list is a prefix of the one snapshot it names, taken for the filter recorded with it |
| BrowserTheorems.OnlyTheLatestRequestWrites | frontend/src/app.ts:394-454 | apart from being cleared, the list changes only by a response to the latest request of the running session, for the filter still chosen |
| BrowserTheorems.SessionOutdates | frontend/src/app.ts:250-285 | a login or an expired session outdates every request under way, and an expired one leaves nothing on the page |
| BrowserTheorems.AppendExtends | frontend/src/app.ts:1346-1376 | loading more only extends the list, within its snapshot |
| BrowserTheorems.ReloadKeepsLength | frontend/src/app.ts:394-410 | a reload shows at least as many events as it set out for, or all there are |
| BrowserTheorems.ReplyAdvances | frontend/src/app.ts:1313-1344 | a page that is not outdated brings a fetch forward by between fifty and five hundred events as the target needs, or to the end of the list |
| BrowserTheorems.UndisturbedLoad | frontend/src/app.ts:1381-1406 | a first page that nothing interferes with is shown |
| BrowserTheorems.UndisturbedRefresh | frontend/src/app.ts:394-454 | a refresh that nothing interferes with shows the list anew, at its length |
| BrowserTheorems.UndisturbedAppend | frontend/src/app.ts:1346-1376 | loading more that nothing interferes with adds the next fifty events |
| BrowserTheorems.ServerCutsThesePages | internal/storage/sqlite.go:780-809 | the pages of the browser machine are those the server cuts |
| BrowserPage.EventList.constructor | frontend/src/app.ts:144-155 | initial variables |
| BrowserPage.EventList.Expire | frontend/src/app.ts:250-285 | a session ends: caches cleared, older calls outdated |
| BrowserPage.EventList.TakeOverEventListLoading | frontend/src/app.ts:387-392 | the next request number, loading flags cleared |
| BrowserPage.EventList.Refresh | frontend/src/app.ts:394-412 | a refresh starts, unless logged out or already refreshing |
| BrowserPage.EventList.LoadFirstPage | frontend/src/app.ts:1381-1392 | a reload starts, and clears a list of another filter |
| BrowserPage.EventList.LoadMore | frontend/src/app.ts:1346-1360 | loading more starts, if it may |
| BrowserPage.EventList.PageFetched | frontend/src/app.ts:1324-1342 | a page arrives in the page loop |
| BrowserPage.EventList.PageAppended | frontend/src/app.ts:1361-1376 | a page arrives for loading more |
| BrowserPage.EventList.Resume | frontend/src/app.ts:443-454 | the result of the page loop is written, or dropped as outdated |
| SshSummary.AddSshFailure | internal/agent/ssh_auth.go:180-191 | counts the address of a failure message |
| SshSummary.SummarizeSshJournal | internal/agent/ssh_auth.go:78-106 | summarises exactly the readable journals within the limits |
| SshSummary.SummarizeSshTextLog | internal/agent/ssh_auth.go:108-157 | summarises exactly the logs within the limits that reach back to the window start |
| SshSummary.ReadLine | internal/agent/ssh_auth.go:114-149 | one log line |
| SshSummary.RankAddresses | internal/agent/ssh_auth.go:193-207 | the addresses by count descending, then address ascending |
| SshSummary.BuildSshAuthSummary | internal/agent/ssh_auth.go:193-219 | the first twenty of that ranking, with window and total |
| SshMeaning.SummaryMeans | internal/agent/ssh_auth.go:193-219 | the summary of a list of failures: window in whole seconds, total, and each source with the number of its failures, ranked before every address left out |
| SshMeaning.JournalMeans | internal/agent/ssh_auth.go:78-106 | which journals are summarised, and the count of each address as the number of its entries |
| SshMeaning.LogMeans | internal/agent/ssh_auth.go:108-157 | which logs are summarised, with the limits written out, and the count of each address as the number of its lines in the window |
| SshTheorems.TallyIsMultiset | internal/agent/ssh_auth.go:180-191 | each count is how often the address failed |
| SshTheorems.CountsSumToTotal | internal/agent/ssh_auth.go:78-157 | the counts add up to the total |
| SshTheorems.SummaryIsDetermined | internal/agent/ssh_auth.go:193-219 | neither record order nor map order shows in the summary |
| SshTheorems.TopTwenty | internal/agent/ssh_auth.go:193-219 | every listed source outranks every address left out, and then twenty are listed |
| SshTheorems.CutKeepsMaximum | internal/hub/event_rules.go:141-150 | the maximum the event rule reads is the maximum over all addresses |
| SshTheorems.ValidateSources | internal/domain/model.go:639-656 | the source loop of both validators |
| SshTheorems.ValidateSshAuthSummary | internal/agent/ssh_auth.go:44-76 | the Agent validator |
| SshTheorems.BothValidatorsAccept | internal/agent/ssh_auth.go:193-219 | Agent and Hub accept every summary built over one window |
| SshTheorems.CollectFromJournal | internal/agent/ssh_auth.go:78-106 | journal to accepted summary |
| SshTheorems.CollectFromLog | internal/agent/ssh_auth.go:108-157 | log to accepted summary |

## Left out

- Titles and details of signals: only their presence matters here; a text the validators refuse counts as a failed commit.
- EventRules.EvaluateEventSignals: the final sort by key, because the transaction sorts again; titles and details.
- SqliteStore.ApplySignals: signals are applied in any order, of which the order by key text is one.
- SqliteStore.ResolveStale: stale rows are resolved in any order, of which the order by key text is one.
- SqliteStore.ReconcileEventSignals: transitions come in any order within openings and recoveries.
- DeploymentPolicy.DeploymentDefinitions: the final sort of the list.
- DeploymentPolicy.ListedDefinitionsAccepted: byte limits of the image and the constant risk field.
- DeploymentExecutor.Machine.DiscoverCurrentRelease: which repository digest of the inspect output names the running image is an arbitrary outcome.
- DeploymentRuns.DecodeIffEncoded: format version, update time and strictness are part of the codec, about which `CodecOk` is assumed.
- Random event, operation and snapshot ids: event rows are named by position, snapshot ids are taken to be new.
- Projection.ProjectObservation: names, kinds, Compose metadata and start times of workloads, proxy routes, and the checks inside resources and login summaries.
- Pruning between the reads of an update and its transaction: an update is one step.
- The in-memory projection of agents and its summaries, and the in-memory store.
- Float rounding of load ratio and usage percentage: exact arithmetic.
- Zero times: a time is any integer, except in the window check of the login summary.
- Two notifiers at once: the code runs one per hub without a fencing token.
- Docker output, HTTP probing and file ownership: their outcomes are arbitrary; the removal of candidate files and the update time in the deployment state are not modelled.
- Size limits of policy, state and response files, and the byte limits that differ from character counts.
- UTF-8 validity: strings are sequences of characters, and the lexer's characters stand for bytes.
- JSON decoding: journal records arrive decoded or unreadable.
- URL, address and upstream parsing: parameters of the route and login models.
- Nginx routes from the parsed tree: the walks over it are straight-line.
- The HTTP layer of the page request, which repeats the checks of the store.
- Event counts, error texts and rendering in the browser, and its other caches.
- FleetLock.StepKeeps: the handlers are one machine of atomic steps, not two methods, because their statements interleave.
- BrowserTheorems.StepKeeps: a browser failure is a dropped response; the error message it leaves on the page is not modelled.
- EventPaging.SnapshotCache.ListEventPage: the id query is a given list in listing order, not a SQL query.
- Login, rate limits, annotations, link checks, service discovery and backups.
