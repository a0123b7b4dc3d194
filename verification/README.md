# Tollkeeper, modelled and proved

Tollkeeper is a Python library for the write-audit-publish pattern: data is written to a staged
version, audited, and promoted only when its checks pass; a signal store tells other pipelines
which tables are ready. This Dafny project models the parts of it that share state and proves what
they do together. `dafny verify dfyconfig.toml` checks everything.

| file | what it models |
|---|---|
| `Json.dfy`, `PrintedForm.dfy`, `ContextKey.dfy`, `KeyStability.dfy` | the context key `json.dumps(ctx or {}, sort_keys=True)`, its parser, when the two undo each other, and for which contexts the cascade finds a stored key again |
| `Tables.dfy`, `Cascade.dfy` | keyed tables as row sequences; the recursive delete as a walk over dependency rows |
| `StoreModel.dfy`, `SqliteStore.dfy`, `DbApiStore.dfy`, `StoreAnswers.dfy`, `Agreement.dfy` | the two signal stores as classes, the one specification they are proved against, what it tells a client, and their agreement |
| `Waiting.dfy` | the polling loop |
| `Session.dfy`, `SessionOutcomes.dfy`, `SessionSafety.dfy`, `FailedAudits.dfy`, `Gate.dfy` | the session state machine, what each call does, its invariants over every call sequence, what becomes of failed data, and its effect on the store |
| `Operator.dfy` | the Airflow operator around a session |
| `Lineage.dfy`, `TaskGroups.dfy` | lineage of parsed SQL, sources, circularity, sensor ids and wiring |
| `Pipeline.dfy`, `PipelineTasks.dfy`, `StoreRuns.dfy`, `Progress.dfy` | runs of many task groups over one store, and what the store holds meanwhile |
| `Csv.dfy`, `Iceberg.dfy` | the two versioning backends under interleaved sessions |

How the source's own forms appear: the two stores, the session and the two backends are classes
whose methods change fields and are proved against specification functions (`StoreModel.Step`,
`Session.Step`, ...); loops stay loops; what runs over time is stated about those functions. A call
that can raise is a parameter that says whether it does. A text is a sequence of code points, lone
surrogates included, as a Python `str` is. A recursive delete has a budget, the depth of nested
calls that the interpreter still allows; running out of it is Python's `RecursionError`.

## What the code does, where its documentation or a first reading says otherwise

- A context key parses back to its context only if no text in the context holds a surrogate pair as
  two separate code points (`ContextKey.KeyRoundTrip` is an if-and-only-if). Two contexts that
  differ only there share a key (`ContextKey.UncleanKeysCollide`; `ContextKey.KeyIdentifies` says
  exactly when keys are equal).
- The cascade parses a stored key and prints it again. That gives the stored text back exactly when
  joining split surrogate pairs leaves the keys of every object in order
  (`KeyStability.RekeyIsStable`). For other contexts the signal of a table registered for a cascade
  survives the delete of its upstream (`StoreModel.CascadeHits`), as for a dict whose two keys are a
  split pair and U+E000 (`StoreModel.CascadeMisses`).
- A delete over a cyclic cascade graph ends in `RecursionError` at every depth
  (`StoreModel.DeleteEnds`); `register_dep` accepts cycles.
- docs/dq-checks.md promises that after any failed check the staged version is rolled back and
  production stays untouched. A stop audit that leaves a failing report asks for the rollback exactly
  when neither the delete of the old signal, nor a check, nor its `on_notify` callback raises
  (`FailedAudits.FailedStopAudit`). `FailedAudits.PublishesFailure` and
  `FailedAudits.FailedDataPublished` say exactly which runs publish failed data;
  `FailedAudits.CallbackLeavesOpen` and `FailedAudits.CheckLeavesOpen` are two whose audits are all to
  stop, one with a callback that raises and one with a check that raises after another failed.
- The repository's README.md, line 181, says a signal follows audit and publish. `audit` writes it
  before `publish`, and the publish may fail (`SessionSafety.SignalBeforePublish`). A version not yet
  published at its signal is published exactly when a later publish call meets a backend that takes
  it and a session not rolled back (`SessionSafety.SignalledIsPublished`); in the operator, exactly
  when the backend takes it (`Operator.SignalledIsPublished`).
- A SQL group without checks has an emitter without upstream tasks, which signals its table before
  anything ran (`Pipeline.UncheckedGroupJumpsTheGate`). The causal order holds in every run exactly
  when each such group shares its table and context with a group without sources
  (`Pipeline.CausalExactly`).
- docs/sql-lineage.md says only CTE references are left out of the sources, and the real tables they
  reference are reported. A CTE alias also hides tables of the same last name under another schema
  (`Lineage.CteHidesQualifiedTable`) and outside its scope, as in the CTE of that name itself
  (`Lineage.CteHidesItsOwnTable`). `Lineage.DocumentationHolds` says exactly for which scripts this
  makes no difference.
- Iceberg's publish does not look at `main`: it loses a snapshot exactly when the current `main` is
  not in the branch's history (`Iceberg.PublishKeepsHistory`, `Iceberg.PublishCanLoseHistory`).
- Sensor ids are not injective on all table names (`TaskGroups.SlugsCollide`,
  `TaskGroups.SensorIdDecodes`); a slug decodes exactly when no underscore of the name stands before
  another one or before a dot.

## Model

| member | source | states |
|---|---|---|
| `Json.ReadBack` | src/tollkeeper/signals/sqlite.py:57-59 | whatever texts a value holds, its printed form parses, and to the value with split surrogate pairs joined (sections 4 and 7 of RFC 8259) |
| `Json.CharsReadBack` | src/tollkeeper/signals/sqlite.py:57-59 | string escapes, with ensure_ascii and surrogate pairs, are undone by the scanner |
| `Json.PrintIsAscii` | src/tollkeeper/signals/sqlite.py:57-59 | whatever texts a value holds, its printed form is visible ASCII |
| `PrintedForm.PrintIsFormat` | src/tollkeeper/signals/sqlite.py:57-59 | the text of a list or dict is that of its parts, joined by a comma and a space, in brackets |
| `PrintedForm.CharWidth` | src/tollkeeper/signals/sqlite.py:57-59 | which characters stand for themselves, and which are two-, six- or twelve-character escapes |
| `PrintedForm.PrintedAlike` | src/tollkeeper/signals/sqlite.py:57-59 | two values print alike if and only if they differ only in astral characters written as two surrogates |
| `ContextKey.KeyParses` | src/tollkeeper/signals/sqlite.py:182-187 | every key parses, and to a dict |
| `ContextKey.KeyRoundTrip` | src/tollkeeper/signals/sqlite.py:57-59 | parsing a key gives back the context with sorted keys if and only if the context is clean |
| `ContextKey.KeyIdentifies` | src/tollkeeper/signals/sqlite.py:57-59 | two contexts have one key if and only if their sorted forms differ only in astral characters written as two surrogates; clean ones, if and only if they are the same dict |
| `ContextKey.KeyIgnoresOrder` | src/tollkeeper/signals/sqlite.py:57-59 | insertion order does not matter at any nesting level |
| `ContextKey.UncleanKeysCollide` | src/tollkeeper/signals/sqlite.py:57-59 | a pair of different contexts with one key, outside the clean ones |
| `ContextKey.LoadFixes` | src/tollkeeper/signals/sqlite.py:182-187 | reading back changes nothing if and only if no text holds a split surrogate pair |
| `ContextKey.MeaningFixesSorted` | src/tollkeeper/signals/sqlite.py:57-59 | dicts equal as unordered maps have one sorted form |
| `ContextKey.StoredKeyParses` | src/tollkeeper/signals/sqlite.py:105-107 | json.loads succeeds on every text a store holds as a key |
| `ContextKey.EmptyKey` | src/tollkeeper/signals/sqlite.py:26-59 | no context and the empty context share the key {}, the tables' default |
| `ContextKey.SortedKeysAscend` | src/tollkeeper/signals/sqlite.py:57-59 | sort_keys puts the keys of every object, nested ones included, in ascending order |
| `ContextKey.LessMeans` | src/tollkeeper/signals/sqlite.py:57-59 | that order is by the first code point that differs, a prefix first |
| `KeyStability.RekeyIsStable` | src/tollkeeper/signals/sqlite.py:182-187 | re-keying a parsed key gives the same text, which the cascade needs to hit stored rows, if and only if joining split pairs keeps the keys of every object in order; so on all clean contexts |
| `KeyStability.RekeyMisses` | src/tollkeeper/signals/sqlite.py:182-187 | a dict whose key the cascade does not find again |
| `KeyStability.RekeyedIsAligned` | src/tollkeeper/signals/sqlite.py:182-187 | whatever stored key is re-keyed, the result is the key of a context of that kind only |
| `Tables.SameRows` | src/tollkeeper/signals/dbapi.py:82-104 | tables with unique keys are permutations of each other if and only if they are the same map |
| `Tables.UpsertView` | src/tollkeeper/signals/sqlite.py:61-81 | an in-place upsert keeps keys unique and sets one entry of the map |
| `Tables.UpsertInPlace` | src/tollkeeper/signals/sqlite.py:61-81 | every row keeps its place, and a new one comes last |
| `Tables.ReinsertView` | src/tollkeeper/signals/dbapi.py:82-104 | delete then insert keeps keys unique and sets the same entry |
| `Cascade.DeleteTerminates` | src/tollkeeper/signals/sqlite.py:83-95 | the recursion ends if and only if no cascade cycle is reachable; then one level more than there are rows is enough, and otherwise no depth is |
| `Cascade.LongPathCycles` | src/tollkeeper/signals/sqlite.py:91-93 | a path longer than the number of dependency rows goes round a cycle |
| `Cascade.VisitEnds` | src/tollkeeper/signals/sqlite.py:91-93 | a walk ends within a depth if and only if every path from its start is shorter |
| `Cascade.DeletedExact` | src/tollkeeper/signals/sqlite.py:83-95 | a walk that ends deletes exactly the nodes reachable by zero or more cascade rows |
| `Cascade.DeletedCount` | src/tollkeeper/signals/sqlite.py:91-93 | it deletes each node once for every path that leads to it |
| `Cascade.RaiseEndsWalk` | src/tollkeeper/signals/sqlite.py:91-95 | a cascade that raises ends the loop: the rows after it are not followed |
| `Cascade.NotifiedPerPath` | src/tollkeeper/signals/dbapi.py:114-118 | a notify row's callback fires once for every distinct cascade path to its upstream node |
| `Cascade.CalledCount` | src/tollkeeper/signals/sqlite.py:94-95 | callbacks follow the deletions of their upstream nodes; cascade rows fire none |
| `Cascade.OrderIrrelevant` | src/tollkeeper/signals/sqlite.py:182-187 | the order in which dependency rows come back changes neither the end, nor the deletions, nor the counts |
| `StoreModel.DeleteExact` | src/tollkeeper/signals/sqlite.py:83-95 | a signal survives a delete if and only if its node is not reachable; dependency and DQ rows stay |
| `StoreModel.DeleteEnds` | src/tollkeeper/signals/dbapi.py:106-118 | a delete returns if and only if no cascade cycle is reachable |
| `StoreModel.DeleteOnlyReached` | src/tollkeeper/signals/sqlite.py:85-93 | even a delete that is cut off removes only reachable signals |
| `StoreModel.CallsPerPath` | src/tollkeeper/signals/dbapi.py:114-118 | the logged callback arguments, with one entry per path and notify row |
| `StoreModel.TargetIsStored` | src/tollkeeper/signals/sqlite.py:182-187 | a cascade row leads to the node a write for its table and context stores if and only if re-keying finds the context |
| `StoreModel.CascadeHits` | src/tollkeeper/signals/sqlite.py:91-93 | a delete that ends removes the signal of a table and context registered for a cascade if and only if re-keying finds the context |
| `StoreModel.OnlyAlignedReached` | src/tollkeeper/signals/sqlite.py:91-93 | no path of cascade rows comes to the node of any other context |
| `StoreModel.CascadeMisses` | src/tollkeeper/signals/dbapi.py:220-228 | a context for which the cascade goes to a node that nothing stores |
| `StoreModel.StepKeepsValid` | src/tollkeeper/signals/sqlite.py:26-55 | every operation keeps primary keys unique and stored contexts parsable |
| `StoreModel.ReadYourWrite` | src/tollkeeper/signals/sqlite.py:97-112 | a check after a write gives back the signal |
| `StoreModel.WriteSparesOthers` | src/tollkeeper/signals/sqlite.py:97-112 | a write does not change what a check for another table, or for a context with another key, sees |
| `StoreModel.ResultsReadBack` | src/tollkeeper/signals/sqlite.py:114-148 | the stored result of a check is the last one written |
| `StoreModel.ClearedResults` | src/tollkeeper/signals/sqlite.py:150-156 | clearing leaves no result of that table and context, and every other row |
| `StoreAnswers.DeletedResults` | src/tollkeeper/signals/sqlite.py:150-156 | clearing leaves no result for its table and context, and every listing elsewhere, signal, dependency and callback as it was |
| `StoreAnswers.ResultSparesOthers` | src/tollkeeper/signals/sqlite.py:114-148 | a written result does not show for another table or a context with another key |
| `StoreAnswers.PolicyAnswers` | src/tollkeeper/signals/sqlite.py:166-167 | register_dep raises for every policy but notify and cascade, and then changes nothing |
| `StoreAnswers.RegisteredAnswers` | src/tollkeeper/signals/sqlite.py:158-187 | what was registered is listed with its table, parsed context and policy |
| `StoreAnswers.OperationsKeepApart` | src/tollkeeper/signals/sqlite.py:61-187 | each operation changes its own table only, and callbacks are called by deletes only, if there is one |
| `StoreAnswers.CallsNameTheirRows` | src/tollkeeper/signals/sqlite.py:94-95 | a callback gets the two tables of its row and the parsed downstream context, in the order of the walk |
| `StoreModel.RegisteredIsListed` | src/tollkeeper/signals/sqlite.py:158-187 | a registered dependency is listed once, with the policy registered last; the other rows of its upstream stay |
| `StoreModel.DependentsListed` | src/tollkeeper/signals/sqlite.py:182-187 | a listing holds the parsed dependent of each row of the node, once per row, and nothing else |
| `SqliteStore.SqliteSignalStore.Delete` | src/tollkeeper/signals/sqlite.py:83-95 | the in-place loop and recursion leave the store, the callback log and the outcome of the walk |
| `SqliteStore.SqliteSignalStore.FollowAll` | src/tollkeeper/signals/sqlite.py:91-95 | the loop over the dependents is the walk over the rows of the node |
| `SqliteStore.SqliteSignalStore.Follow` | src/tollkeeper/signals/sqlite.py:91-95 | one turn of that loop is one row of the walk |
| `SqliteStore.SqliteSignalStore.Write` | src/tollkeeper/signals/sqlite.py:61-81 | the whole new state of an upsert |
| `SqliteStore.SqliteSignalStore.RegisterDep` | src/tollkeeper/signals/sqlite.py:158-180 | an unknown policy raises and changes nothing; otherwise the row is replaced |
| `SqliteStore.SqliteSignalStore.WriteDqResult` | src/tollkeeper/signals/sqlite.py:114-130 | the whole new state of a result upsert |
| `SqliteStore.SqliteSignalStore.DeleteDqResults` | src/tollkeeper/signals/sqlite.py:150-156 | the results of the given table and context go, by the key of that context |
| `SqliteStore.SqliteSignalStore.Check` | src/tollkeeper/signals/sqlite.py:97-112 | what a check answers |
| `SqliteStore.SqliteSignalStore.GetDqResults` | src/tollkeeper/signals/sqlite.py:132-148 | a result is listed if and only if some row of the table and context holds it |
| `SqliteStore.SqliteSignalStore.GetDownstream` | src/tollkeeper/signals/sqlite.py:182-187 | d is listed if and only if some row of the node has it as its parsed dependent, with one entry per row |
| `DbApiStore.DbApiSignalStore.Delete` | src/tollkeeper/signals/dbapi.py:106-118 | as for SQLite |
| `DbApiStore.DbApiSignalStore.FollowAll` | src/tollkeeper/signals/dbapi.py:114-118 | the loop over the dependents is the walk over the rows of the node |
| `DbApiStore.DbApiSignalStore.Follow` | src/tollkeeper/signals/dbapi.py:114-118 | as for SQLite |
| `DbApiStore.DbApiSignalStore.Write` | src/tollkeeper/signals/dbapi.py:82-104 | the whole new state of delete then insert |
| `DbApiStore.DbApiSignalStore.RegisterDep` | src/tollkeeper/signals/dbapi.py:189-218 | as for SQLite, by delete then insert |
| `DbApiStore.DbApiSignalStore.WriteDqResult` | src/tollkeeper/signals/dbapi.py:138-158 | as for SQLite, by delete then insert |
| `DbApiStore.DbApiSignalStore.DeleteDqResults` | src/tollkeeper/signals/dbapi.py:181-187 | the results of the given table and context go, by the key of that context |
| `DbApiStore.DbApiSignalStore.Check` | src/tollkeeper/signals/dbapi.py:120-136 | what a check answers |
| `DbApiStore.DbApiSignalStore.GetDqResults` | src/tollkeeper/signals/dbapi.py:160-179 | a result is listed if and only if some row of the table and context holds it |
| `DbApiStore.DbApiSignalStore.GetDownstream` | src/tollkeeper/signals/dbapi.py:220-228 | d is listed if and only if some row of the node has it as its parsed dependent, with one entry per row |
| `Agreement.StepsAgree` | src/tollkeeper/signals/dbapi.py:82-118 | one operation on two stores with the same rows gives the same answer and the same rows |
| `Agreement.StoresAgree` | src/tollkeeper/signals/dbapi.py:82-118 | after every sequence of operations, recursive deletes included, the stores hold permutations of the same rows and gave the same answers |
| `Agreement.EmptyStoresAgree` | src/tollkeeper/signals/sqlite.py:61-95 | the same from two new stores |
| `Waiting.Wait` | src/tollkeeper/signals/base.py:52-67 | ends after at most ceil(timeout / poll) checks; returns the first signal seen, or times out only if every check saw none |
| `Waiting.WaitIsPrompt` | src/tollkeeper/signals/base.py:61-67 | with exact sleeps, a signal present from time t on is returned before t + poll |
| `Session.TollkeeperSession.Write` | src/tollkeeper/core.py:92-107 | flags, calls and outcome, whatever raises |
| `Session.TollkeeperSession.RunChecks` | src/tollkeeper/core.py:124-125 | results before a check that raises stay in the report |
| `Session.TollkeeperSession.Audit` | src/tollkeeper/core.py:109-152 | flags, calls and outcome, whatever raises |
| `Session.TollkeeperSession.Publish` | src/tollkeeper/core.py:154-168 | flags, calls and outcome, whatever raises |
| `Session.TollkeeperSession.Rollback` | src/tollkeeper/core.py:170-181 | flags, calls and outcome, whatever raises |
| `Session.TollkeeperSession.Exit` | src/tollkeeper/core.py:76-82 | an undecided session is rolled back and its backend's exception swallowed |
| `Session.TollkeeperSession.Del` | src/tollkeeper/core.py:60-71 | the same when the session is collected |
| `SessionSafety.EveryCallSequenceRuns` | src/tollkeeper/core.py:76-181 | every sequence of calls is a run, so that what follows holds of all of them |
| `SessionOutcomes.WriteOutcome` | src/tollkeeper/core.py:92-107 | a write returns if and only if its function does; otherwise the backend is asked to roll back, and unless that raises the session stays rolled back and is never published |
| `SessionOutcomes.RollbackOutcome` | src/tollkeeper/core.py:170-181 | a published session refuses, an undecided one asks the backend, and after a rollback that returned nothing is published |
| `SessionOutcomes.AbandonOutcome` | src/tollkeeper/core.py:60-82 | exit and collection always return, ask for a rollback of what is undecided, and bar its publishing |
| `SessionOutcomes.PublishOutcome` | src/tollkeeper/core.py:154-168 | publish refuses, without asking the backend, exactly what is rolled back or was never audited |
| `SessionOutcomes.AuditOutcome` | src/tollkeeper/core.py:109-152 | when an audit returns, and when it raises what, by its arguments and the report |
| `SessionOutcomes.AuditDeletesFirst` | src/tollkeeper/core.py:118-122 | with a store the old signal is deleted before anything else, and once |
| `SessionOutcomes.AuditOverFailures` | src/tollkeeper/core.py:127-135 | which calls an audit makes over a failing report |
| `SessionOutcomes.AuditNotifiesFirst` | src/tollkeeper/core.py:127-135 | the callback is told before the rollback |
| `SessionOutcomes.AuditOverPasses` | src/tollkeeper/core.py:137-150 | a signal is written if and only if there is a store and the report passed |
| `SessionOutcomes.RanMeans` | src/tollkeeper/core.py:124-125 | the checks run in order, up to the first one that raises |
| `SessionSafety.PublishIsGuarded` | src/tollkeeper/core.py:161-167 | the backend is asked to publish only after some audit ran all its checks, and never when rolled back or published |
| `SessionSafety.PublishesOnce` | src/tollkeeper/core.py:165-167 | after a publish the backend is never asked again |
| `SessionSafety.PublishedMeans` | src/tollkeeper/core.py:165-167 | the published flag is the history of the publishes |
| `SessionSafety.AuditedMeans` | src/tollkeeper/core.py:118-125 | the audited flag is the history of audits that ran all their checks |
| `SessionSafety.FlagsOnlyGoUp` | src/tollkeeper/core.py:50-58 | flags never fall and the report only grows |
| `SessionSafety.BothFlags` | src/tollkeeper/core.py:92-181 | published and rolled back at once if and only if, after a publish, a write raised and was undone or a stop audit failed |
| `SessionSafety.PublishedIsNotAbandoned` | src/tollkeeper/core.py:60-82 | after a publish the backend is asked to roll back only by a write that raised or a stop audit that failed |
| `SessionSafety.RolledBackMeans` | src/tollkeeper/core.py:92-181 | the rolled-back flag is the history of the rollbacks |
| `SessionSafety.ExitDecides` | src/tollkeeper/core.py:76-82 | after exit or collection a session is published or rolled back |
| `SessionSafety.SignalMeansPassed` | src/tollkeeper/core.py:137-150 | a signal is written only when every result so far passed |
| `SessionSafety.FailureIsFinal` | src/tollkeeper/core.py:137-150 | once a result failed the session never writes a signal again |
| `SessionSafety.SignalBeforePublish` | src/tollkeeper/core.py:137-168 | a run that signals a version that is then rolled back |
| `SessionSafety.SignalledIsPublished` | src/tollkeeper/core.py:137-168 | after a signal the version ends published if and only if it was already, or a later publish meets a backend that takes it and a session not rolled back |
| `FailedAudits.FailedStopAudit` | src/tollkeeper/core.py:121-135 | a stop audit that leaves a failing report asks for a rollback and bars publishing if and only if neither its delete, nor a check, nor its callback raises |
| `FailedAudits.ReportFails` | src/tollkeeper/core.py:124-125 | the report fails if and only if a check of some audit so far did |
| `FailedAudits.OpenWithFailure` | src/tollkeeper/core.py:121-135 | a session not rolled back holds a failed result if and only if some audit left a failing report and was to continue, or had a check or its callback raise |
| `FailedAudits.PublishesFailure` | src/tollkeeper/core.py:154-168 | exactly when the backend is asked to publish a version with a failed result |
| `FailedAudits.FailedDataPublished` | src/tollkeeper/core.py:109-168 | exactly which runs end with a published version and a failed result, found before or after the publish |
| `FailedAudits.CallbackLeavesOpen` | src/tollkeeper/core.py:127-135 | a run that publishes failed data after a stop audit whose callback raised |
| `FailedAudits.CheckLeavesOpen` | src/tollkeeper/core.py:124-125 | a run without callbacks that publishes failed data after a stop audit in which a check raised |
| `Gate.AuditClosesGate` | src/tollkeeper/core.py:121-124 | from the initial delete of an audit to its final write no poll sees the signal, whatever other clients do, even if the delete is cut off |
| `Gate.AuditReopensGate` | src/tollkeeper/core.py:137-152 | afterwards the signal is there if and only if it was written, on normal return if and only if every accumulated result passed |
| `Gate.AuditClosesDownstream` | src/tollkeeper/core.py:121-152 | if the delete ends, every cascade descendant is left without a signal, pass or fail |
| `Gate.AuditIsAGate` | src/tollkeeper/core.py:121-152 | all of this for a whole audit, whose delete returns exactly when the store's does, whatever raises |
| `Operator.Execute` | packages/airflow-tollkeeper/src/airflow_tollkeeper/operator.py:53-84 | a created version ends published or rolled back, never both; the operator runs between redirect and restore, which come once each; a ref is pushed and returned only when published |
| `Operator.Body` | packages/airflow-tollkeeper/src/airflow_tollkeeper/operator.py:67-81 | the with block over a real session object: redirect, run, restore, then audit and publish |
| `Operator.ActsOrdered` | packages/airflow-tollkeeper/src/airflow_tollkeeper/operator.py:67-83 | the wrapped operator runs once, after a redirect that returned, is restored after that, and the ref is pushed last, for a published version only |
| `Operator.AuditWaitsForRun` | packages/airflow-tollkeeper/src/airflow_tollkeeper/operator.py:68-79 | unless redirect, run and restore returned, the session does nothing but roll back |
| `Operator.AuditEnds` | packages/airflow-tollkeeper/src/airflow_tollkeeper/operator.py:74-80 | when the audit of the operator returns, by its checks, mode and store |
| `Operator.NobodyIsNotified` | packages/airflow-tollkeeper/src/airflow_tollkeeper/operator.py:75-80 | the operator passes no callback |
| `Operator.SessionDecided` | packages/airflow-tollkeeper/src/airflow_tollkeeper/operator.py:67-81 | for every pattern of exceptions: at most one publish, and one rollback attempt exactly when not published |
| `Operator.SignalledIsPublished` | packages/airflow-tollkeeper/src/airflow_tollkeeper/operator.py:67-81 | a signalled version is published if and only if the backend takes the publish, and rolled back otherwise |
| `Lineage.TableName` | src/tollkeeper/parser.py:19-26 | the joined parts are the dotted name without missing qualifiers |
| `Lineage.NameIsDotted` | src/tollkeeper/parser.py:19-26 | catalog, schema and table in this order, without those missing |
| `Lineage.ExtractLineage` | src/tollkeeper/parser.py:33-67 | the nested loops compute the declarative sources and sinks; an empty parse is an error |
| `Lineage.AddSources` | src/tollkeeper/parser.py:62-65 | what the tables of one statement add |
| `Lineage.WalkVisitsAll` | src/tollkeeper/parser.py:57-65 | the breadth-first traversal visits every node, so its order matters for the target only |
| `Lineage.TargetIsTopLeft` | src/tollkeeper/parser.py:57-60 | an INSERT, CREATE or MERGE writes the table at the smallest depth, and there the one furthest to the left; other statements write none |
| `Lineage.FirstChildIsTarget` | src/tollkeeper/parser.py:57-60 | a table that is the first child of such a statement is its target |
| `Lineage.FirstIsTopLeft` | src/tollkeeper/parser.py:57-65 | the first table of the traversal has no table above it, nor to its left at its depth |
| `Lineage.LineageComposes` | src/tollkeeper/parser.py:48-67 | sinks of A+B are the union; sources are those of A and those of B that A does not write |
| `Lineage.DocumentedSources` | src/tollkeeper/parser.py:62-65 | the documented sources, tables read outside the scope of a CTE of their name, are those of the code and the hidden ones read before they are written |
| `Lineage.DocumentationHolds` | src/tollkeeper/parser.py:62-65 | code and documentation agree if and only if every name read through a hidden table is written by then or is a source all the same |
| `Lineage.CteHidesQualifiedTable` | src/tollkeeper/parser.py:62-65 | an alias hides a table of the same last name under a schema, a documented source |
| `Lineage.CteHidesItsOwnTable` | src/tollkeeper/parser.py:62-65 | an alias hides the real table that a CTE of its name is made from, a documented source |
| `TaskGroups.SlugDecodes` | packages/airflow-tollkeeper/src/airflow_tollkeeper/task_group.py:21-22 | a slug decodes to its name if and only if no underscore precedes an underscore or a dot |
| `TaskGroups.SensorIdsDistinct` | packages/airflow-tollkeeper/src/airflow_tollkeeper/task_group.py:92-93 | sensor ids are distinct if and only if the names they decode to are; distinct unambiguous sources have distinct ids |
| `TaskGroups.SensorIdDecodes` | packages/airflow-tollkeeper/src/airflow_tollkeeper/task_group.py:92-93 | two tables share a sensor id if and only if they decode to one name |
| `TaskGroups.SlugsCollide` | packages/airflow-tollkeeper/src/airflow_tollkeeper/task_group.py:21-22 | two tables with one sensor id |
| `TaskGroups.ResolveSources` | packages/airflow-tollkeeper/src/airflow_tollkeeper/task_group.py:25-53 | explicit sources win, unparsable SQL gives none, a foreign sink is refused, otherwise the sources of the lineage |
| `TaskGroups.MismatchMeans` | packages/airflow-tollkeeper/src/airflow_tollkeeper/task_group.py:42-53 | SQL is refused if and only if some statement writes a table and none writes this one |
| `TaskGroups.GroupSources` | packages/airflow-tollkeeper/src/airflow_tollkeeper/task_group.py:73-82 | the circular error is raised if and only if the table is its own source |
| `TaskGroups.WireSqlGroup` | packages/airflow-tollkeeper/src/airflow_tollkeeper/task_group.py:163-202 | the loops build exactly sensors, operator, checks, emitter and their edges |
| `TaskGroups.WireWrappedGroup` | packages/airflow-tollkeeper/src/airflow_tollkeeper/task_group.py:90-116 | the loops build exactly sensors before the operator |
| `TaskGroups.CircularMeans` | packages/airflow-tollkeeper/src/airflow_tollkeeper/task_group.py:42-53 | for SQL that writes the table: circular if and only if some statement reads it, not under a CTE alias, before or without any statement up to it writing it |
| `TaskGroups.OneStatementIsNeverCircular` | packages/airflow-tollkeeper/src/airflow_tollkeeper/task_group.py:81-82 | a single statement that writes its table is never circular |
| `Pipeline.CausalOrder` | packages/airflow-tollkeeper/src/airflow_tollkeeper/task_group.py:163-202 | in every interleaving each signal write follows a write for each source of a group that writes its table and context |
| `Pipeline.CausalExactly` | packages/airflow-tollkeeper/src/airflow_tollkeeper/task_group.py:163-202 | this holds in all runs from an empty store if and only if each SQL group without checks shares its table and context with a group without sources |
| `Pipeline.TransitiveSourcesFirst` | packages/airflow-tollkeeper/src/airflow_tollkeeper/task_group.py:163-202 | and for every table up its chain of sources at the same context |
| `Pipeline.CyclesNeverSignal` | packages/airflow-tollkeeper/src/airflow_tollkeeper/task_group.py:163-202 | a table on a source cycle is never signalled |
| `Pipeline.UncheckedGroupJumpsTheGate` | packages/airflow-tollkeeper/src/airflow_tollkeeper/task_group.py:201-202 | in any pipeline, a group without checks that shares its table with no group without sources can break the order at once |
| `Pipeline.AuditAnyOrder` | packages/airflow-tollkeeper/src/airflow_tollkeeper/dq_operator.py:54-73 | in any interleaving the stored results are those of the run's own checks over what was there before |
| `Pipeline.SameCountsSameResults` | packages/airflow-tollkeeper/src/airflow_tollkeeper/dq_operator.py:54-73 | equal counts give equal stored results, for every table and check |
| `Pipeline.EmitterVerdict` | packages/airflow-tollkeeper/src/airflow_tollkeeper/signal_operator.py:39-69 | an emitter never misses a result, writes its signal if and only if its checks counted nothing and no leftover result fails, and otherwise fails if and only if it is to stop |
| `Pipeline.TaskEnds` | packages/airflow-tollkeeper/src/airflow_tollkeeper/task_group.py:163-202 | which task an action ends, and whether it succeeds |
| `PipelineTasks.PokeSensor` | packages/airflow-tollkeeper/src/airflow_tollkeeper/sensor.py:33-35 | a sensor succeeds if and only if the signal is on the board |
| `PipelineTasks.RunDqCheck` | packages/airflow-tollkeeper/src/airflow_tollkeeper/dq_operator.py:54-82 | a check stores whether its query returned no rows, and nothing else changes |
| `PipelineTasks.RunEmitter` | packages/airflow-tollkeeper/src/airflow_tollkeeper/signal_operator.py:39-69 | the emitter's outcome and the board after it, by the verdict over the stored results |
| `PipelineTasks.OutcomeOfRows` | packages/airflow-tollkeeper/src/airflow_tollkeeper/signal_operator.py:39-69 | missing, failed or passed by the stored rows, raising on a failed one only for stop |
| `PipelineTasks.EmitterTaskEnds` | packages/airflow-tollkeeper/src/airflow_tollkeeper/signal_operator.py:39-69 | the emitter's task fails if and only if its operator raises |
| `PipelineTasks.VerdictOfResults` | packages/airflow-tollkeeper/src/airflow_tollkeeper/signal_operator.py:39-55 | missing names and failed results of a listing are the verdict over the board |
| `PipelineTasks.DeleteFromBoard` | src/tollkeeper/signals/sqlite.py:83-95 | a delete takes its signals off the board and nothing else; if it ends, they are those of all nodes it reaches |
| `StoreRuns.ActionOnStore` | packages/airflow-tollkeeper/src/airflow_tollkeeper/signal_operator.py:39-69 | one action of a run changes the board as the statement of its task changes the store |
| `StoreRuns.RunOnStore` | packages/airflow-tollkeeper/src/airflow_tollkeeper/task_group.py:163-202 | through whole interleaved runs the board is what the store shows |
| `StoreRuns.CyclesNeverFound` | packages/airflow-tollkeeper/src/airflow_tollkeeper/sensor.py:33-35 | no check on the store ever finds a signal for a table on a source cycle |
| `Progress.EveryScheduleSignals` | packages/airflow-tollkeeper/src/airflow_tollkeeper/signal_operator.py:39-69 | with acyclic sources, sources from outside signalled, and no failing result of another check left over for a table not yet signalled, every schedule is finite, and one that cannot go on has signalled every table, over old failing results of a group's own checks too |
| `Progress.DeliversExactly` | packages/airflow-tollkeeper/src/airflow_tollkeeper/signal_operator.py:39-69 | every full schedule signals every table if and only if no such result is left over |
| `Progress.LeftoverBlocks` | packages/airflow-tollkeeper/src/airflow_tollkeeper/signal_operator.py:50-69 | over such a result a SQL group never signals its table, whatever its checks find |
| `Progress.FullSchedule` | packages/airflow-tollkeeper/src/airflow_tollkeeper/task_group.py:163-202 | there is a schedule that cannot be continued |
| `Progress.SmoothRun` | packages/airflow-tollkeeper/src/airflow_tollkeeper/task_group.py:163-202 | every step ends one more task, and every failing row is left over or has its check yet to run |
| `Csv.CsvBackend.CreateVersion` | src/tollkeeper/backends/csv.py:40-43 | a staging path that the clean-up pattern matches and that no other suffix gives |
| `Csv.CsvBackend.PublishVersion` | src/tollkeeper/backends/csv.py:11-17 | rename and copy-and-delete end in the same files; a missing staged file raises and changes nothing |
| `Csv.CsvBackend.RollbackVersion` | src/tollkeeper/backends/csv.py:49-50 | only the staged file goes, if it is there |
| `Csv.CsvBackend.CleanupStaging` | src/tollkeeper/backends/csv.py:52-69 | a file goes and is listed, once, if and only if it is a staging file by directory and pattern and older than the cutoff; no other file changes |
| `Csv.StagingNameMatches` | src/tollkeeper/backends/csv.py:42-65 | every staging file made here is one the clean-up pattern matches |
| `Csv.PatternMeans` | src/tollkeeper/backends/csv.py:42-65 | the clean-up pattern takes exactly the names that create_version can give |
| `Csv.RefsDistinct` | src/tollkeeper/backends/csv.py:42 | fresh suffixes give different staging files whatever the tables are called |
| `Csv.OnlyPublishChangesProduction` | src/tollkeeper/backends/csv.py:45-50 | production for a table changes only in a publish of a session for it, to the staged file |
| `Csv.PublishedWasAudited` | src/tollkeeper/backends/csv.py:45-47 | whatever other sessions do in between, a publish that does not raise installs the file the audit saw |
| `Csv.StagedSurvives` | src/tollkeeper/backends/csv.py:40-69 | clean-ups never take a staged file written at or after their cutoff, and other sessions never take it at all |
| `Csv.DiscardedIsNotPublished` | src/tollkeeper/backends/csv.py:45-50 | a version rolled back and not staged again is gone, and publishing it changes nothing |
| `Csv.ProductionKept` | src/tollkeeper/backends/csv.py:40-69 | without a publish for the table production stays |
| `Iceberg.IcebergBackend.CreateVersion` | src/tollkeeper/backends/iceberg.py:30-46 | a branch at the current snapshot, or an error without one |
| `Iceberg.IcebergBackend.PublishVersion` | src/tollkeeper/backends/iceberg.py:48-57 | main moves to the branch head and the branch goes |
| `Iceberg.IcebergBackend.RollbackVersion` | src/tollkeeper/backends/iceberg.py:59-70 | the branch goes, and a missing one is no error |
| `Iceberg.RunKeepsInv` | src/tollkeeper/backends/iceberg.py:30-70 | in every interleaving a branch keeps the history it was created on |
| `Iceberg.BranchesLeaveMain` | src/tollkeeper/backends/iceberg.py:40-57 | creating, writing and dropping branches never moves main |
| `Iceberg.PublishKeepsHistory` | src/tollkeeper/backends/iceberg.py:55-57 | nothing leaves main's history if and only if the current main is in the branch's history, as it is while main has not moved; only the own branch goes |
| `Iceberg.PublishCanLoseHistory` | src/tollkeeper/backends/iceberg.py:55-57 | a write to main after the branch was created is lost |

## Left out

- SQL engines, connections, transactions and schema creation: a table is a sequence of rows with a primary key; `close`, `paramstyle` and column width limits are not modelled.
- sqlglot, its dialects and the Jinja pattern: statements start as trees, `find` is the first of `find_all`; that an empty `sql` argument falls back to the operator's own SQL is not modelled.
- pyiceberg: the effects of its three reference operations are assumed as documented in the backend.
- Airflow scheduling beyond "all upstream tasks succeeded": retries, cleared tasks, templating, XCom contents, engine and strategy lookup.
- The alphabetical order in which sensors are created: it does not affect ids or edges.
- Integers of more than 4300 digits, which `json.dumps` refuses from Python 3.11 on.
- Contexts with floats, tuples or keys that are not strings; Python's `True == 1` inside contexts; JSON nesting deeper than Python's own recursion limit.
- Delete callbacks, checks and notifications that change the store themselves: they are taken not to; callbacks that raise inside a delete.
- Exceptions that are not `Exception` subclasses, which `write` lets through without a rollback.
- Timestamps, log messages, error texts and the `details` strings, carried through unread.
- I/O errors in the middle of a file copy, and a crash between copy and delete.
- The Polars checks, the strategy registry and the SQL passthrough backend: lookups, thin wrappers and no-ops.
- Waiting.Wait: a poll interval of zero or below, for which the loop need not end or the sleep raises, is not modelled.
- Csv.OnlyPublishChangesProduction: table names with a path separator are left out, because a path is a directory and a name here; with `..` in them two such names can mean one production file.
- Csv.ProductionKept: the same names are left out, for the same reason.
- Csv.PublishedWasAudited: the same names are left out, for the same reason.
- StoreModel.CallsPerPath: the callback receives only the upstream table name, so rows that differ in the upstream context alone fire with equal arguments.
