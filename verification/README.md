# Advanced Automation Manager: verified model

A Dafny model of the hub's own logic, one module for each component, with proofs of what the
components promise. `dafny verify dfyconfig.toml` verifies all of it.

| file | what it models |
|---|---|
| `SyncQueue.dfy` | sync locks with expiry, the job queue, the scheduler cycle: mutual exclusion and bounded staleness over all interleavings |
| `SyncRun.dfy` | one sync as a transaction with rollback and failure path; the alert machine over all runs |
| `Policies.dfy`, `PolicyAnswers.dfy` | policy rules, scope and the comparison of settings; what each rule measures, value by value |
| `FleetEvaluation.dfy` | the nested evaluation loops against an order-free specification |
| `Remediation.dfy`, `Drift.dfy` | pushing configuration and remembering it; drift as a set difference over the same cached data |
| `Search.dfy` | LIKE escaping against a backtracking matcher |
| `SessionToken.dfy`, `Revocation.dfy` | unpadded base64url tokens; revocation over all runs |
| `Access.dfy` | roles, delegation and what non-administrators can change |
| `JobPages.dfy`, `HealthScore.dfy` | top-k of top-ks merged by a dictionary; the averaged health score |
| `Topology.dfy`, `TopologyPage.dfy` | the graphs the API sends; the tree of mutable child lists the page builds from them |
| `Migration.dfy` | the row-splitting data migration |
| `Capabilities.dfy`, `EnvironmentForm.dfy` | the capability profile both ways; comma-separated lists and slugs |
| `Common.dfy` | options, Python's string order, white space |

Code that updates rows, dictionaries or lists is a class or a method with loops, proved against a
specification function or predicate; the properties are lemmas about those and about whole runs.
Each protocol is a step function over a list of events, so a statement about `Run` is a statement
about every interleaving. Lemmas beside each specification function say what it computes in plain values:
seconds, rows, fields and sets of environments.

## Findings

Where the code does less than its documentation or structure suggests, the model keeps the code and
proves exactly when the property holds:

- The sync lock expires 900 s after the enqueue, while the job timeout counts from the start of the
  job. A job that waits in the queue can therefore be overtaken, and its final delete then frees the
  lock of its successor (`ProtectedUntilTtl`, `WaitingJobIsOvertaken`).
- The first commit of a run stands outside its try block; when it fails the lock stays until it
  expires. A push that raises anything but RuntimeError, such as a connection error, ends the scheduler
  cycle, so later environments wait for the next one (`BeginRun`, `EnqueueDueSyncs`).
- Tokens carry whole seconds, so a token issued in the second of a password change outlives it
  (`PasswordChangeSparesItsSecond`, `SameSecondSurvives`). A token with characters outside ASCII in its
  signature is not rejected: the comparison raises (`RaisesOnForeignSignature`).
- The data migration appends up to 33 characters to a name of up to 120 and up to 22 to a slug of up
  to 140, so one row with a long name, say of 100 characters, aborts it (`MigrationCompletes`,
  `LongNameAborts`).
- A resource key that repeats in one collection fails the whole run (`DuplicateKeysRollBack`).
- An execution environment stored without a name would count as "None" when a push is remembered, so a
  pushed resource of that name would not be recorded (`RememberedIsCompliant`). Neither the collector
  nor a push stores such a record (`CollectedIsRecordable`).
- A setting can still drift after a clean push to the whole fleet, because the comparison of settings is
  coarser than the printed values that drift compares: "1" stays beside True (`SettingDriftAfter`,
  `AcceptedTextStillDrifts`).
- Where the controller puts jobs that have not started in front, as PostgreSQL does for a descending
  order, a list without a status can show waiting jobs in place of the latest started ones
  (`PageCoversExactly`, `WaitingJobCrowdsOut`).
- A filtered list of orchestrator executions reads a window of max(3 * limit, 40) records and can
  miss matches behind it (`ExactForEveryStatus`, `FailedExecutionIsMissed`).
- An extra capability called "__proto__", which JSON.parse reads like any other key, is lost when the
  form is opened again (`ProfileRoundTrip`, `ProtoEntryIsLost`).
- Tags and groupings that contain commas or outer spaces change when the form is saved
  (`ListRoundTrip`).
- A service name with a colon could make topology ids collide (`ColonMakesIdsCollide`); the
  connectors store none, and the theorems about one environment assume it. A service called
  "integration" does no harm, because resource ids are 36 characters long and no integration
  kind is.

## Model

| member | source | states |
|---|---|---|
| `SyncQueue.SyncHub.Enqueue` | backend/app/services/collector.py:32-45 | Taking the lock and pushing the job is one step of the protocol model; a held key refuses and changes nothing, a failed push leaves no key, and success adds one job and a key that expires 900 s later |
| `SyncQueue.SyncHub.EnqueueDueSyncs` | backend/app/services/collector.py:205-227 | The scheduler loop is one cycle of the protocol model, which `CycleInSeconds` fixes in seconds: it returns as many job ids as it added jobs, in order, passes over held locks and pushes that raise RuntimeError, and ends early exactly when a push it needs raises anything else |
| `SyncQueue.SyncHub.BeginRun` | backend/app/services/collector.py:111-120 | A worker that gets past its first commit leaves lock and job alone; one that does not loses the job and leaves the lock |
| `SyncQueue.SyncHub.EndRun` | backend/app/services/collector.py:149-202 | The end of a run deletes the lock key whoever set it, stamps the environment and takes the job out of flight |
| `SyncQueue.StepKeepsExclusive` | backend/app/services/collector.py:32-45 | Every step of the protocol (clock, API request, scheduler cycle, start, end, crash, settings) keeps the invariant: each job in flight owns the lock entry of its environment, and no environment has two jobs |
| `SyncQueue.MutualExclusion` | backend/app/services/collector.py:21-45 | In every interleaving in which each job ends within 900 s of its own enqueue, an environment never has two jobs in flight and its lock is held while it has one |
| `SyncQueue.ProtectedUntilTtl` | backend/app/services/collector.py:35-37 | The exact limit of the lock: another enqueue for a job in flight is refused if and only if less than 900 s have passed since its enqueue, and otherwise the environment has two jobs |
| `SyncQueue.WaitingJobIsOvertaken` | backend/app/services/collector.py:32-45 | A concrete run in which a job within its own timeout is overtaken because it waited in the queue, and then frees the lock of its successor so that a third job joins |
| `SyncQueue.CycleFrame` | backend/app/services/collector.py:205-227 | What a cycle leaves alone: clock, settings, jobs in flight and held locks; every added job belongs to a wanted, unlocked environment and every new lock to an added job |
| `SyncQueue.CycleIsExact` | backend/app/services/collector.py:205-227 | A cycle that returns enqueues exactly the listed environments that are managed, due and unlocked and whose push succeeds; `CycleInSeconds` says what due means in seconds |
| `SyncQueue.StepKeepsBounded` | backend/app/scheduler.py:36-50 | Every step of a punctual run keeps the bookkeeping from which the staleness bound follows |
| `SyncQueue.WatchCanStart` | backend/app/scheduler.py:36-50 | The bookkeeping can start in any state whose records do not lie in the future |
| `SyncQueue.BoundedStaleness` | backend/app/scheduler.py:36-50 | While jobs end or die within 900 s of their enqueue, every window of 900 s + 60 * sync interval + the longest time between completed cycles contains an enqueue of each managed environment, even when workers die holding its lock |
| `SyncQueue.LockLastsFifteenMinutes` | backend/app/services/collector.py:20-37 | After an accepted enqueue a second one for the same environment is refused for exactly 900 seconds, if nobody deletes the key |
| `SyncQueue.ApiAddsExactly` | backend/app/api/routes.py:465-480 | A sync request adds a job exactly when the environment is registered and managed, no unexpired key is there, and the push succeeds |
| `SyncQueue.CycleInSeconds` | backend/app/services/collector.py:205-227 | A cycle that returns adds a job exactly for the listed environments that are managed, hold no unexpired key, were never synchronized or at least 60 seconds times the interval ago, and whose push succeeds |
| `SyncQueue.NoEarlySync` | backend/app/services/collector.py:216-219 | Lower bound over whole runs: no scheduler cycle adds a job for an environment less than 60 seconds times its interval after its last sync, whatever else happens, as long as its settings stay |
| `SyncQueue.FinishStartsInterval` | backend/app/services/collector.py:149-202 | The end of every run, in success or failure, starts that interval |
| `SyncQueue.SettingsByEvent` | backend/app/api/routes.py:400-462 | Saving an environment sets whether and how often it is synchronized and keeps the time of its last sync; deleting it leaves locks and jobs alone |
| `SyncRun.Session.Begin` | backend/app/services/collector.py:111-126 | The first commit: only a running execution without an end or an error is added, and nothing when the environment is gone |
| `SyncRun.Session.RecordFleetSignal` | backend/app/services/collector.py:65-108 | The method form of the sample window and the alert machine equals the functional one |
| `SyncRun.Session.UpsertSnapshots` | backend/app/services/collector.py:48-62 | The upsert loop equals the fold that replaces a snapshot in place or adds it |
| `SyncRun.Session.Replace` | backend/app/services/collector.py:122-173 | The transaction raises exactly when the environment is missing, the collection failed, a resource key repeats, or anything else raises up to and including the commit (the policy evaluation, a value longer than its column); then nothing is committed, else exactly the collected inventory |
| `SyncRun.Session.Finish` | backend/app/services/collector.py:122-202 | A whole run, with rollback and failure path, commits exactly the successful or the failed outcome and leaves the working copy equal to the committed tables |
| `SyncRun.Session.AcknowledgeAlert` | backend/app/api/routes.py:198-212 | An acknowledgement touches only the acknowledged flag of that alert |
| `SyncRun.SamplesStayInWindow` | backend/app/services/collector.py:75-91 | A signal drops exactly the environment's samples older than 14 days, keeps every other one as often as it was, and adds exactly one, with the environment, status and time of the signal and the reported score within 0..100 |
| `SyncRun.UpsertAllExact` | backend/app/services/collector.py:48-62 | After the upserts the snapshots are exactly the old ones of other services plus one fresh one for each collected service |
| `SyncRun.AllOrNothing` | backend/app/services/collector.py:111-202 | After a run of a registered environment the execution is completed or failed with a finish time, the inventory is the collected or the previous one and never a mixture, every other environment keeps its resources, and the sync error is set exactly when the run failed, which implies status critical |
| `SyncRun.SignalStep` | backend/app/services/collector.py:92-108 | One signal creates an alert exactly on a change to critical, closes the open one on recovery, and keeps at most one open |
| `SyncRun.StepSound` | backend/app/services/collector.py:65-108 | Every step (register, delete, begin, finish, acknowledge) keeps: one open alert at most, open only while critical; and it creates as many alerts as it makes turns to critical |
| `SyncRun.AlertEpisodes` | backend/app/services/collector.py:65-195 | Over every run of syncs with acknowledgements in between, the alerts ever created for an environment are as many as the turns of its committed status to critical |
| `SyncRun.AlertsByStatus` | backend/app/services/collector.py:92-108 | The alerts after a signal, row by row: one open alert added on the change to critical, none while critical, and otherwise exactly the open ones resolved |
| `SyncRun.RunByField` | backend/app/services/collector.py:122-202 | Every field of the environment and of the execution after a run that succeeds and after one that fails, and the status and score of the stored sample |
| `SyncRun.SucceedsExactly` | backend/app/services/collector.py:111-173 | When a run succeeds: the environment exists, the collection answered, no two collected resources share service, kind and external id, and nothing else raised |
| `Policies.ValuesEqualLaws` | backend/app/services/policies.py:391-407 | The comparison of settings is reflexive and symmetric |
| `Policies.ValuesEqualIsNotTransitive` | backend/app/services/policies.py:391-407 | The comparison of settings is not transitive: a concrete triple |
| `Policies.LooserRuleKeepsCompliance` | backend/app/services/policies.py:263-337 | Loosening the threshold or version prefix of a rule never turns a compliant environment noncompliant |
| `Policies.TimeOnlyAges` | backend/app/services/policies.py:280-287 | Time alone changes only the answer of the age rule, and only from compliant to noncompliant |
| `Policies.NamedResourceAnswer` | backend/app/services/policies.py:374-388 | A named resource policy is compliant exactly when it names a resource and the environment reports it |
| `Policies.NoResourcesMeansNone` | backend/app/services/policies.py:374-388 | The "no inventory" test and the membership test of a named resource speak about the same set of names |
| `PolicyAnswers.ScopeNarrows` | backend/app/services/policies.py:211-224 | Kind, capability and each tag of a scope take away exactly the environments that miss it; a capability counts unless it is empty, zero, false or null |
| `PolicyAnswers.ScopeByProduct` | backend/app/services/policies.py:227-252 | Which rule types apply to which product when the scope names nothing |
| `PolicyAnswers.PythonEqualIsIdentity` | backend/app/services/policies.py:391-393 | Without numbers and truth values inside, the comparison of Python values is identity, however deep they nest |
| `PolicyAnswers.PythonEqualNumbers` | backend/app/services/policies.py:391-393 | Among numbers True is 1 and False is 0 |
| `PolicyAnswers.TextsAgree` | backend/app/services/policies.py:391-407 | Two texts are the same setting exactly when they agree but for case, are both words for true or for false, or read as the same number |
| `PolicyAnswers.FlagAndText` | backend/app/services/policies.py:391-407 | A truth value is the same setting as exactly the three words for it |
| `PolicyAnswers.TlsFollowsTheFlag` | backend/app/services/policies.py:262-265 | The TLS policy is compliant when certificates are verified and noncompliant when they are not |
| `PolicyAnswers.UpperBounds` | backend/app/services/policies.py:267-309 | Sync interval, failed jobs and failed executions: for every value of that one datum, compliant up to the threshold and noncompliant above it |
| `PolicyAnswers.LowerBounds` | backend/app/services/policies.py:311-339 | Health score and service values: for every value of that one datum, noncompliant below the threshold and compliant from it on |
| `PolicyAnswers.MissingIsZero` | backend/app/services/policies.py:297-339 | A value the summary does not hold counts as zero |
| `PolicyAnswers.AgeInSeconds` | backend/app/services/policies.py:280-287 | An environment synchronized s seconds ago is compliant exactly when s is less than 60 * (threshold + 1), and one never synchronized never is |
| `PolicyAnswers.VersionByPrefix` | backend/app/services/policies.py:273-278 | Compliant exactly when the version begins with the characters of the prefix; no version begins only with the empty one |
| `PolicyAnswers.ComponentByUrl` | backend/app/services/policies.py:289-295 | Giving a component a URL makes its policy compliant, taking it away noncompliant |
| `PolicyAnswers.HostsByGateway` | backend/app/services/policies.py:341-358 | Without a gateway unknown; a component on the gateway's host changes nothing, one on another host makes it noncompliant |
| `PolicyAnswers.PresentByValue` | backend/app/services/policies.py:317-325 | A capability is present unless it is missing, null or blank |
| `PolicyAnswers.EnabledByValue` | backend/app/services/policies.py:327-333 | A capability is enabled exactly when it is true, a positive number or a text that is not blank |
| `PolicyAnswers.SettingByValue` | backend/app/services/policies.py:360-371 | A stored setting is judged by the comparison, a missing or unnamed one is unknown |
| `PolicyAnswers.ResourcesByKind` | backend/app/services/policies.py:410-425 | Where the names of each kind are read from |
| `PolicyAnswers.MissingResource` | backend/app/services/policies.py:374-388 | A resource that is not there: unknown without a name or without any controller configuration, else noncompliant, and for decision environments always noncompliant |
| `PolicyAnswers.UnrecognizedIsUnknown` | backend/app/services/policies.py:388-388 | Any other rule type is unknown |
| `FleetEvaluation.Governance.EvaluatePolicies` | backend/app/services/policies.py:434-460 | The loop writes exactly one row for every enabled policy in scope, with the answer `PolicyAnswers` fixes rule by rule, and no other row changes |
| `FleetEvaluation.Governance.CheckEnvironment` | backend/app/services/policies.py:484-505 | The inner loop adds to each outcome count the policies with that answer, finds out whether any was in scope, and folds the worst answer (`CheckShowsAnswer`) |
| `FleetEvaluation.Governance.EvaluateFleet` | backend/app/services/policies.py:463-529 | The nested loops write exactly the rows of the pairs in scope, with the answers `PolicyAnswers` fixes rule by rule, and return the counts and checks of the order-free specification |
| `FleetEvaluation.WrittenThen` | backend/app/services/policies.py:434-460 | Writing two sets of pairs one after the other is writing their union, where no two pairs share a row |
| `FleetEvaluation.CountsAddUp` | backend/app/services/policies.py:476-529 | evaluated + skipped = environments = number of checks, the three outcome counts sum to the pairs in scope, and a check says skipped exactly when nothing was in scope |
| `FleetEvaluation.WorstIsMaximum` | backend/app/services/policies.py:532-534 | Each check is the maximum of the answers in scope under skipped < compliant < unknown < noncompliant |
| `FleetEvaluation.WorstIgnoresOrder` | backend/app/services/policies.py:532-534 | The check does not depend on the order of the policies |
| `FleetEvaluation.CountsAreSizes` | backend/app/services/policies.py:476-529 | The three outcome counts are the numbers of pairs in scope with that answer, evaluated is the number of environments with a policy in scope, skipped the number of the others |
| `FleetEvaluation.CheckShowsAnswer` | backend/app/services/policies.py:484-534 | Each check names its environment and shows noncompliant if any answer in scope is, else unknown if any is, else compliant if there is one, else skipped |
| `Remediation.RemediateFleet` | backend/app/services/remediation.py:17-79 | Refused without a trace unless an enabled policy of that id is remediable; else exactly the environments in scope, not compliant and accepted by the controller are changed, applied and failed count the accepted and the other needy ones, skipped the rest, and the rows and counts are those of a re-evaluation |
| `Remediation.PushAll` | backend/app/services/remediation.py:32-73 | The loop changes exactly the environments in scope, not compliant and accepted by the controller, and counts applied, failed and skipped |
| `Remediation.RememberedIsCompliant` | backend/app/services/remediation.py:82-115 | Re-evaluation after a push agrees with the push if and only if the rule names its key or resource, and does not ask for an execution environment called "None" beside one without a name |
| `Remediation.CollectedIsRecordable` | backend/app/services/connectors.py:797-805 | On data in the shape the collector stores only the name in the rule matters, and remembering a push keeps that shape |
| `Remediation.ResourcesStayCompliant` | backend/app/services/remediation.py:82-115 | Remembering any push keeps every resource policy compliant that was compliant |
| `Remediation.Conserved` | backend/app/services/remediation.py:27-73 | applied + failed + skipped is the number of environments |
| `Remediation.AnswerAfter` | backend/app/services/remediation.py:32-73 | After the run an environment in scope is out of order exactly when its push failed, that is when it was out of order and the rule or the controller refused |
| `Remediation.FinalCounts` | backend/app/services/remediation.py:75-79 | In the final counts noncompliant + unknown = failed and compliant = applied + the environments in scope that were skipped |
| `Remediation.SecondRunApplies` | backend/app/services/remediation.py:17-79 | After a run without failures a second run skips every environment and changes none |
| `Remediation.PushedExactly` | backend/app/services/remediation.py:32-73 | An environment changes only if it was in scope and not compliant, the rule says what to push and the controller accepted it; then it becomes the remembered one |
| `Remediation.TotalsAreSizes` | backend/app/services/remediation.py:32-73 | applied is the number of those environments, failed the number of the other environments in scope that were not compliant |
| `Remediation.AllRefused` | backend/app/services/remediation.py:57-73 | If the controller refuses every push, nothing is pushed and no environment changes |
| `Remediation.AllAccepted` | backend/app/services/remediation.py:38-56 | If it accepts every push of a rule that says what to push, none fails |
| `Remediation.RememberedLeavesRest` | backend/app/services/remediation.py:82-115 | Remembering a push changes only its own datum: other fields, services, counters, settings and names stay |
| `Remediation.OnlyThatResource` | backend/app/services/remediation.py:90-115 | Remembering a push adds no resource but the one of the rule |
| `Drift.SetDriftItems` | backend/app/services/platform_config.py:219-224 | The loop reports exactly the names with two different values, ascending, each once, with the presence in every environment |
| `Drift.SettingDriftItems` | backend/app/services/platform_config.py:201-209 | The loop reports exactly the settings with two different printed values, ascending, each once |
| `Drift.BuildConfigBaseline` | backend/app/services/platform_config.py:146-216 | The baseline contains these items for two kinds of settings and three kinds of names, and nothing else of these kinds |
| `Drift.DriftIsExact` | backend/app/services/platform_config.py:219-224 | The names reported for a kind are exactly the union without the intersection over the AAP environments, and none are reported exactly when all sets are equal |
| `Drift.SettingDriftIsExact` | backend/app/services/platform_config.py:193-209 | A setting is reported exactly when two environments of the product store values that print differently |
| `Drift.RemediationEndsDrift` | backend/app/services/remediation.py:82-115 | After a fleet-wide remediation of a named resource without failures that name no longer drifts |
| `Drift.SettingDriftAfter` | backend/app/services/remediation.py:17-97 | After a fleet-wide remediation of a setting without failures the setting still drifts exactly when two AAP environments end with values that print differently: an accepted value stays, every other one becomes the value of the rule |
| `Drift.PushedSettingDrifts` | backend/app/services/remediation.py:38-60 | If anything was pushed, that is exactly when some environment kept an accepted value that prints unlike the value of the rule |
| `Drift.AcceptedTextStillDrifts` | backend/app/services/policies.py:391-407 | Such a fleet: "1" is accepted for True and stays beside it |
| `Drift.SettingItemsByEnvironment` | backend/app/services/platform_config.py:193-209 | For either product: which settings are listed, and that each item shows exactly the values its environments store |
| `Drift.SetItemsByEnvironment` | backend/app/services/platform_config.py:146-224 | Each item shows for every AAP environment, and no other, whether it reports the name |
| `Drift.ReportedIsResource` | backend/app/services/platform_config.py:146-192 | Drift and policies read the same names for organizations, execution environments and instance groups, blank ones apart |
| `Search.EscapeIsOnePass` | backend/app/services/search.py:17-18 | The three ordered replacements equal one pass that escapes each special character |
| `Search.EscapedPatternIsLiteral` | backend/app/services/search.py:17-46 | For all strings q and s the pattern made of the escaped q is well formed and matches s exactly when q is a contiguous part of s |
| `Search.EscapedILikeIsLiteral` | backend/app/services/search.py:35-42 | The same for ILIKE, with both sides case folded |
| `Search.RawPatternIsNotLiteral` | backend/app/services/search.py:17-18 | Without the escaping the statement is false |
| `Search.SearchTerms` | backend/app/services/search.py:21-26 | The terms are the query first, then its alias if there is one, without repetition |
| `Search.RunSearch` | backend/app/services/search.py:29-67 | A search returns exactly the first visible rows in which the query or its alias occurs literally in one of five columns |
| `Search.ResultsAreVisible` | backend/app/services/search.py:58-59 | Restricting the environments takes away exactly the rows of the others, and no environment means no row |
| `Search.AnswerConcat` | backend/app/services/search.py:47-67 | The answer depends on each row alone and keeps their order |
| `Search.AliasesFindOrchestrator` | backend/app/services/search.py:10-26 | The three alias words, in any case and with outer spaces, also search for "orchestrator" |
| `Search.KnownAliasKeys` | backend/app/services/search.py:21-26 | Two examples: an alias is found in capitals and with outer spaces |
| `SessionToken.EncodeShape` | backend/app/services/passwords.py:69-69 | Every base64url encoding is letters without "." and "=" followed by the padding its length asks for |
| `SessionToken.DecodeEncode` | backend/app/services/passwords.py:69-84 | Decoding undoes encoding for every byte sequence |
| `SessionToken.UnpaddedRoundTrip` | backend/app/services/passwords.py:69-84 | Stripping the padding and recomputing it as -len mod 4 loses nothing |
| `SessionToken.SplitSigned` | backend/app/services/passwords.py:77-77 | Splitting at the last "." recovers body and signature |
| `SessionToken.TokenRoundTrip` | backend/app/services/passwords.py:61-89 | Every issued token reads back as its payload up to and including second exp, and is rejected afterwards |
| `SessionToken.AcceptedMeansSigned` | backend/app/services/passwords.py:72-89 | Exactly the accepted tokens: a signed ASCII body that decodes to the payload, until its last second |
| `SessionToken.RaisesOnForeignSignature` | backend/app/services/passwords.py:76-79 | Reading a token raises instead of rejecting it exactly when the part behind the last "." is not ASCII |
| `SessionToken.TokensAreDistinct` | backend/app/services/passwords.py:61-70 | Two payloads never share a token |
| `SessionToken.KnownEncodings` | backend/app/services/passwords.py:69-69 | Test vectors of section 10 of RFC 4648 and the letters of the URL-safe alphabet |
| `Revocation.Accounts.UpdateUser` | backend/app/api/auth_routes.py:305-341 | The handler accepts or refuses, in its order of checks; an accepted update sets the fields as `UpdateByField` states them one by one and issues a session only to a user who changed their own password |
| `Revocation.AcceptsLive` | backend/app/security.py:72-79 | A request with an issued token is accepted exactly when the payload has not expired, its user is active and no later revocation is stored |
| `Revocation.RevocationIsPermanent` | backend/app/security.py:72-79 | A token revoked in a later second is refused in every continuation: after enabling again, after more password changes, after logins |
| `Revocation.RevokedForever` | backend/app/api/auth_routes.py:320-333 | A password change or a disabling refuses, for ever, every token of the user issued in an earlier second |
| `Revocation.ValidUntilExpiry` | backend/app/services/passwords.py:92-96 | Without a further revocation a token issued at or after the latest one is accepted exactly until exp |
| `Revocation.NewSessionIsValid` | backend/app/api/auth_routes.py:81-100 | Every newly issued session starts valid |
| `Revocation.PasswordChangeSparesItsSecond` | backend/app/services/passwords.py:92-96 | Of the tokens accepted before a password change, exactly those issued in the second of the change survive it |
| `Revocation.SameSecondSurvives` | backend/app/services/passwords.py:92-96 | Such a token exists: a concrete run |
| `Revocation.UpdateByField` | backend/app/api/auth_routes.py:305-355 | Every field after an accepted update: the hash of the new password, the flag, the address, the known groups with "authenticated", the time of revocation; a field the request leaves out stays, as do all other accounts |
| `Revocation.UpdateByRight` | backend/app/api/auth_routes.py:305-341 | What changed tells who asked: only the user or an administrator changes an account, only an administrator groups, and the flag only on another account that is not built in |
| `Revocation.RefusedOnlyByRight` | backend/app/api/auth_routes.py:305-341 | A request within these rights, with an acceptable password, is accepted, and no other |
| `Revocation.CodesByCause` | backend/app/api/auth_routes.py:305-341 | 404 exactly for a missing account, 403 only for a caller who is no administrator, 400 only for a rejected password or an activation of one's own or the built-in account |
| `Revocation.SessionsByRight` | backend/app/services/passwords.py:61-70 | A session begins only with a verified login of an active user or the user's own password change; it names the user and lasts the given minutes from the second of its issue |
| `Revocation.DisabledUserIsOut` | backend/app/api/auth_routes.py:116-128 | In every run from a disabling to the next accepted enabling no token of the user is accepted and no login of the user issues a session |
| `Revocation.DisablingTakesEffect` | backend/app/api/auth_routes.py:327-333 | An accepted disabling disables the account at once |
| `Revocation.EnabledUserSignsIn` | backend/app/api/auth_routes.py:116-128 | After an accepted enabling a verified login issues a session that is accepted |
| `Revocation.NewAccountSignsIn` | backend/app/api/auth_routes.py:283-303 | A new account is active, changes no other account, and a verified login issues a session that is accepted |
| `Access.LoadProfile` | backend/app/services/access.py:67-104 | The role sets built in the loop are exactly the roles that built-in groups, assignments and sign-in give |
| `Access.PermissionsNest` | backend/app/services/access.py:54-127 | In every state administer implies operate implies read, and read agrees with the list of visible environments |
| `Access.AccessStore.Create` | backend/app/api/auth_routes.py:358-391 | Creating an assignment is one step of the directory model, with the status code of the first failing check; an assignment that exists and ids longer than their columns both give 409 |
| `Access.AccessStore.Delete` | backend/app/api/auth_routes.py:394-413 | Deleting an assignment likewise |
| `Access.AccessStore.CreateEnv` | backend/app/api/routes.py:320-378 | A new environment comes with one environment-admin assignment for its creator; one row with the name or slug gives 409, two rows raise |
| `Access.AccessStore.DeleteEnv` | backend/app/api/routes.py:450-462 | Deleting an environment removes exactly the assignments on it |
| `Access.SystemRolesUnchanged` | backend/app/api/auth_routes.py:358-413 | Over every run of requests by users who are not system administrators nobody gains or loses a system role |
| `Access.DelegationStaysLocal` | backend/app/api/auth_routes.py:358-413 | Over every such run an environment none of the senders administered at the start keeps exactly its assignments and still exists, however the senders work together |
| `Access.PermissionsByRole` | backend/app/services/access.py:107-128 | Which roles each permission takes |
| `Access.RowGrants` | backend/app/services/access.py:67-104 | Every stored assignment gives its role to the user it names and to every member of the group it names |
| `Access.OutsiderHoldsNothing` | backend/app/services/access.py:67-104 | Who is in no group and named by no assignment is authenticated and nothing else |
| `Access.BuiltInGroups` | backend/app/services/access.py:67-104 | Membership in a built-in group gives the role of that group |
| `Access.CreatedIsHeld` | backend/app/api/auth_routes.py:358-391 | An accepted assignment is stored with its fields, beside all others, and the named user holds the role afterwards; a refused one changes nothing |
| `Access.CreateByRight` | backend/app/api/auth_routes.py:358-391 | Exactly which assignments are accepted, from whom |
| `Access.DeleteByRight` | backend/app/api/auth_routes.py:394-413 | Exactly which deletions are accepted, from whom; one row goes and no other |
| `Access.CodesByCause` | backend/app/api/auth_routes.py:358-413 | An administrator is never answered 403; 404 exactly for a missing row, and for a missing environment only with the right to delete it; with the right, an environment role on the system gives 400 and one namesake of a new environment 409 |
| `Access.CreatorAdministers` | backend/app/api/routes.py:320-378 | The creator, and nobody else, holds a role on a new environment, and it is environment-admin |
| `Access.DeletedIsForgotten` | backend/app/api/routes.py:450-462 | After a deletion nobody holds a role on the environment, and every role on another one stays |
| `Access.EnvironmentsByRight` | backend/app/api/routes.py:320-462 | Who may delete, and who alone may create, environments |
| `JobPages.ControllerJobPage` | backend/app/services/connectors.py:865-899 | A page merged from one request per status has no id twice, and enough of the asked jobs for the latest limit of them when no page mixes started with unstarted jobs it cannot hold |
| `JobPages.PageCoversExactly` | backend/app/services/connectors.py:896-899 | For a service that puts unstarted jobs first or last: a page is enough for the latest jobs if and only if it puts them last, holds all jobs, or all jobs or none have started |
| `JobPages.WaitingJobCrowdsOut` | backend/app/services/connectors.py:896-899 | Without a status and with unstarted jobs first, a waiting job crowds out any started one |
| `JobPages.ListJobs` | backend/app/services/connectors.py:837-863 | The merged list has no job twice and is sorted; under the page condition it has the start times of the latest limit jobs of the asked statuses over both endpoints |
| `JobPages.TopOfTops` | backend/app/services/connectors.py:885-893 | Cutting off a list that covers all jobs gives the same start times as cutting off all jobs |
| `JobPages.BatchesCover` | backend/app/services/connectors.py:875-886 | The per-status pages together cover all jobs of the statuses |
| `JobPages.MergedPageUnique` | backend/app/services/connectors.py:854-863 | A dictionary merge, sorted and cut off, never holds a key twice |
| `JobPages.ListOrchestratorExecutions` | backend/app/services/connectors.py:901-918 | The loop with its early exit returns the first matches of the window it reads |
| `JobPages.ExactForEveryStatus` | backend/app/services/connectors.py:910-918 | A filtered list of given executions is exact whatever their statuses are if and only if there are at most max(3 * limit, 40) of them |
| `JobPages.WindowIsExact` | backend/app/services/connectors.py:910-918 | Which lists are exact, and that every list of full length is |
| `JobPages.FailedExecutionIsMissed` | backend/app/services/connectors.py:910-918 | A list that is not: one failed execution behind forty running ones |
| `JobPages.NothingAsked` | backend/app/services/connectors.py:55-64 | A filter without a non-empty status finds nothing, and its empty list is exact |
| `JobPages.UnfilteredIsExact` | backend/app/services/connectors.py:910-918 | Without a filter the list of executions is always the true top |
| `JobPages.AskedByStatus` | backend/app/services/connectors.py:865-899 | The asked jobs are those with a wanted status, each as often as the service holds it |
| `JobPages.MergeKeyByTypeAndId` | backend/app/services/connectors.py:854-861 | Two records share a place exactly when id and type agree, a missing type counting as "job" |
| `JobPages.LastRecordWins` | backend/app/services/connectors.py:856-861 | Of several records with one key the merged list holds the last |
| `JobPages.WorkflowsAreTyped` | backend/app/services/connectors.py:852-853 | A workflow record without a type is listed as a workflow job, and nothing else about it changes |
| `JobPages.NormalForms` | backend/app/services/connectors.py:41-52 | The normal form of every status, with outer spaces and case ignored |
| `JobPages.PlainTrimsAndLowers` | backend/app/services/connectors.py:48-64 | An example: a status with outer spaces and a capital reads as its plain word |
| `JobPages.EitherWordMatches` | backend/app/services/connectors.py:55-64 | A completed execution is found by its own word and by "successful", and by no other |
| `HealthScore.Collect` | backend/app/services/connectors.py:603-621 | The loop computes the floor of the average over the scored services and the status by thresholds |
| `HealthScore.StatusByCounts` | backend/app/services/connectors.py:603-621 | For any number of services: healthy exactly when 3h >= 3w + 10c, critical exactly when 8h + 2w < 5c, and the score lies in 35..100 |
| `HealthScore.OneCriticalOfFour` | backend/app/services/connectors.py:587-596 | With at most four services a critical one rules out a healthy estate |
| `HealthScore.UnscoredServicesDoNotCount` | backend/app/services/connectors.py:605-612 | Unconfigured and unknown services change neither score nor status, wherever they stand |
| `HealthScore.ImprovementIsMonotone` | backend/app/services/connectors.py:605-621 | When one service improves neither score nor status gets worse |
| `HealthScore.ScoreIsFlooredAverage` | backend/app/services/connectors.py:603-621 | The score is the largest whole number not above the average of 100, 70 and 35, and the status unknown exactly when nothing is scored |
| `Topology.FleetTopology` | backend/app/api/routes.py:483-536 | The nested loops emit exactly the specified graph |
| `Topology.FleetGraphIsTree` | backend/app/api/routes.py:483-536 | The fleet graph has distinct ids, one edge less than nodes, every edge leads to the next node from an earlier one, and its nodes are exactly the hub, the environments and their services |
| `Topology.EnvironmentTopology` | backend/app/api/routes.py:539-654 | The loops over snapshots, resources and integrations emit exactly the specified graph |
| `Topology.EnvironmentGraphIsTree` | backend/app/api/routes.py:539-654 | The same for one environment with its services, their resources and the declared integrations |
| `Topology.TargetsOnce` | backend/app/api/routes.py:483-654 | In such a graph every node but the root is the target of exactly one edge |
| `Topology.EveryNodeIsReachable` | backend/app/api/routes.py:483-654 | Every node is reachable from the root |
| `Topology.ColonMakesIdsCollide` | backend/app/api/routes.py:578-590 | A service name with a colon can give two nodes one id |
| `Topology.FleetParents` | backend/app/api/routes.py:483-536 | In the fleet graph every environment hangs below the hub and every service below its own environment |
| `Topology.EnvironmentParents` | backend/app/api/routes.py:539-654 | In an environment's graph every service and declared integration hangs below the environment and every resource below its own service, each with its kind |
| `Topology.IntegrationsByCapability` | backend/app/api/routes.py:594-650 | Which capability makes which integration appear |
| `TopologyPage.BuildTree` | frontend/src/pages/topology.tsx:37-54 | The loops over mutable child lists link each node object to the objects of its targets, in order, and return the objects nothing leads to |
| `TopologyPage.Render` | frontend/src/pages/topology.tsx:56-105 | The recursion over the linked objects ends and lists a node before its children, in order |
| `TopologyPage.OnceFromRoot` | frontend/src/pages/topology.tsx:37-54 | Every node occurs exactly once below the root |
| `TopologyPage.FlatteningIsPermutation` | frontend/src/pages/topology.tsx:37-54 | Flattening the tree of a graph is a permutation of its nodes |
| `TopologyPage.ShowTopology` | frontend/src/pages/topology.tsx:37-105 | From a tree graph the page gets a single root, and the recursion over it ends and shows every node exactly once |
| `TopologyPage.TargetsConcat` | frontend/src/pages/topology.tsx:37-54 | The children of a node are collected in the order of the edges |
| `TopologyPage.TargetsOfOne` | frontend/src/pages/topology.tsx:37-54 | One edge gives its source its target as a child, if both ends are nodes, and nobody else anything |
| `TopologyPage.KidsAreTargets` | frontend/src/pages/topology.tsx:37-54 | The children in the tree are the targets of the edges from the node |
| `Migration.Connection.SplitOne` | backend/alembic/versions/20260916_0004_environment_kind.py:54-140 | The statements for one row compute one step of the functional migration, whose new row `SplitOffFields` fixes field by field; an insert that breaks a unique key or exceeds a column changes nothing |
| `Migration.Connection.Upgrade` | backend/alembic/versions/20260916_0004_environment_kind.py:35-140 | The loop computes the functional migration, whose tables `MigrationConserves` fixes field by field, or changes nothing when an insert is refused |
| `Migration.MigrationConserves` | backend/alembic/versions/20260916_0004_environment_kind.py:35-140 | Exactly the rows with an Orchestrator URL on another kind are split; each yields one row with that URL as both URLs, its Orchestrator credentials and shared columns, and keeps every other field of its own; exactly the children of service "orchestrator" move, every other row and child stays, names, slugs and children stay unique, no row with such a URL is left, and a second run selects nothing |
| `Migration.MigrationCompletes` | backend/alembic/versions/20260916_0004_environment_kind.py:54-66 | With fresh ids the migration completes if and only if for every selected row name + 24 and slug + 13 characters, and 9 more where the generic name or slug is taken before the migration, fit VARCHAR(120) and VARCHAR(140) (backend/app/models.py:26-27) |
| `Migration.LongNameAborts` | backend/alembic/versions/20260916_0004_environment_kind.py:54-66 | A selected row with a name of 100 characters aborts the migration |
| `Migration.SplitOffFields` | backend/alembic/versions/20260916_0004_environment_kind.py:54-116 | The inserted row field by field: both URLs, the credentials and the shared columns of the source row, no AAP credentials, kind "orchestrator", the trimmed description or the default one |
| `Capabilities.FormIsCoherent` | frontend/src/capabilities.ts:27-49 | The list of known keys is exactly the mode, the node count, the string fields and the flags, and no key has two meanings |
| `Capabilities.ParseCapabilityProfile` | frontend/src/capabilities.ts:70-108 | The loop over the entries keeps exactly those without a known key, but loses "__proto__" |
| `Capabilities.BuildCapabilities` | frontend/src/capabilities.ts:110-163 | The loops that set and delete keys leave exactly the specified entry, or none, under every key |
| `Capabilities.BuiltIsUnique` | frontend/src/capabilities.ts:110-163 | These entries determine the stored record |
| `Capabilities.ParseAfterBuild` | frontend/src/capabilities.ts:70-163 | What storing and reading back makes of any profile |
| `Capabilities.ProfileRoundTrip` | frontend/src/capabilities.ts:70-163 | Profile and extra entries come back unchanged if and only if the mode is set, the strings are trimmed, the node count is absent or finite and positive, and no extra entry has a known key or the key "__proto__" |
| `Capabilities.ProtoEntryIsLost` | frontend/src/capabilities.ts:76-80 | An extra entry "__proto__" is stored and does not come back |
| `Capabilities.SavingChangesNothing` | frontend/src/capabilities.ts:70-163 | Opening and saving leaves a stored record as it is if and only if the record is canonical |
| `Capabilities.SavedOnceIsStable` | frontend/src/capabilities.ts:110-163 | What the form stores is not changed by storing it again if and only if the mode is set, the node count is not infinite and no extra entry is called "__proto__" |
| `Capabilities.IntegersReadBack` | frontend/src/capabilities.ts:59-68 | A number written in decimal, with either sign and followed by anything but a digit or a space at the end, reads back as that number |
| `Capabilities.LettersAreNoNumber` | frontend/src/capabilities.ts:59-68 | A text that begins with a letter is not a number |
| `Capabilities.EmptyRecord` | frontend/src/capabilities.ts:70-108 | Nothing stored means manual mode, no flag, no text and no node count |
| `Capabilities.WrongTypesReadAsNothing` | frontend/src/capabilities.ts:51-108 | Only true sets a flag, only a text fills a text field, and a finite number or a text gives a node count |
| `EnvironmentForm.SplitAfterJoin` | frontend/src/components/environment-form.tsx:124-153 | Joining a list and splitting it again takes every item apart at its own commas |
| `EnvironmentForm.ListRoundTrip` | frontend/src/components/environment-form.tsx:124-153 | A list survives the form if and only if its items are non-empty, trimmed and free of commas |
| `EnvironmentForm.TypedListIsStable` | frontend/src/components/environment-form.tsx:124-153 | For every string, splitting, joining and splitting gives what splitting gave |
| `EnvironmentForm.SlugifyFixesSlugs` | frontend/src/components/environment-form.tsx:116-122 | Every result is a slug, slugify leaves exactly the slugs alone, and twice is once |
| `EnvironmentForm.SlugIsWords` | frontend/src/components/environment-form.tsx:116-122 | The slug of a name is its words, the longest runs of letters and digits, in order, with single dashes between them |
| `EnvironmentForm.WordIsAlone` | frontend/src/components/environment-form.tsx:116-122 | A text of letters and digits is one word |
| `EnvironmentForm.WordsApart` | frontend/src/components/environment-form.tsx:116-122 | Any other character separates words |

## Left out

- Transport: HTTP, LDAP, OIDC, Redis and SQL. A remote call is a success or a failure given as a
  parameter, Redis a map with expiry, the database tables that change at commit.
- Cryptography and JSON text: signing is a function to 64 hexadecimal digits, the JSON writer a function
  with a left inverse; a payload is the four fields the hub writes, so tokens signed by the hub with other JSON content are not modelled.
- Message texts, labels, audit records, logging, and the scraping of single services.
- Clocks: a fleet evaluation and a remediation read the time once, a scheduler cycle is one step in which the
  clock stands still, and a running job dies without trace or reaches its finally block.
- A Redis failure while taking the lock is treated like a failed push; signal handling and the sleep
  of the scheduler are events of the run.
- Sync runs of one environment overlap in no run of `AlertEpisodes`: that they do not is what
  `MutualExclusion` gives, under its timing condition.
- Flushes inside a transaction, and columns no property speaks about (platform version, namespaces,
  URLs, evaluation messages and details).
- The policy evaluation inside a sync is an exception or none; its rows are the subject of
  `FleetEvaluation.dfy`.
- Thresholds and counters that are not numbers, where int() raises; str() of list and dictionary
  values and float() parsing are parameters of the comparison.
- What a controller really holds after a push, and a creation payload whose own name replaces the rule's name.
- Settings drift compares printed values of the environments that report a setting, as the code does;
  the per-environment rows of the baseline response are not modelled.
- Collation and Unicode case folding of ILIKE: the folding maps characters one for one and neither
  moves nor makes a special character.
- Text columns refuse longer values; that the database cuts off excess spaces silently, and over-long
  names of new environments, are not modelled.
- The controller answers one page in its order by start, with unstarted jobs first or last, and does not
  cap the page size below the one asked for.
- Jobs with equal start times may come in any order, so `ListJobs` states start times and membership,
  not the choice among ties; statuses are taken to be distinct, and ids to be unique for each endpoint.
- Dictionaries are compared as maps: the order of keys in an object is not modelled.
- `SyncQueue.BoundedStaleness`: the time between completed cycles is a parameter, because a cycle that
  raises is not completed and the sleep of max(interval, 15) seconds starts after the cycle.
- `Revocation.NewSessionIsValid`: the cookie and the response around the token are not modelled.
- External identity providers, group mapping and the development bypass; groups change only outside
  the runs of `Access.dfy`.
- Exhaustion of number ranges: parseInt of more than 300 digits, and floating-point rounding of node counts.
- Migration columns that both rows share are one field; the schema statements around the loop are left out.
- `EnvironmentForm.SlugifyFixesSlugs`: lower-casing is a function that leaves slug characters and dashes alone.
- React rendering, styling, page state, the API client, deployment manifests, the other migrations,
  activity lists and plain counters: they would only add easy members.
