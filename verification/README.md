# AnubisWatch: alert state, cluster work and API algorithms in Dafny

AnubisWatch is an uptime monitor that runs as one node or as a cluster. This
project models the parts of it whose correctness depends on whole runs rather
than on one call, and proves what those runs keep:

| file | models |
|---|---|
| `Quota.dfy` | quota admission against a lagging replica, on every node of a cluster |
| `ClusterLoops.dfy` | the event queue, its wake channel and the debounced ownership loop |
| `AlertSync.dfy` | in-memory alert channels and rules against replicated storage |
| `Dedup.dfy` | notification dedup records, reservations, releases and replicated records |
| `Seed.dfy` | taking a soul over: failure streak and status clock from stored judgments |
| `Incidents.dfy` | incidents, operator writes and the escalation checker, split where they drop the lock |
| `FailureRate.dfy` | the pruned sample buffer behind failure-rate and percentage conditions |
| `RateLimit.dfy` | all-or-nothing request quotas and the cleanup loop |
| `DepthReader.dfy` | the streaming JSON depth guard |
| `Router.dfy` | route order, matching and dispatch |
| `Redaction.dfy` | redact-then-merge of journeys and alert channels |
| `Export.dfy` | the hour-chunked judgment export |
| `LogRotate.dfy` | the rotating log file |
| `Options.dfy` | a value that may be missing, shared by the others |

Objects that the program updates in place are classes whose methods are proved
equal to a specification function. Concurrency is a state machine: a run is any
sequence of atomic steps, and the theorems are about every run. Time is an
integer in nanoseconds that is passed in and never goes back; IDs that the
program generates are new. Strings are sequences of characters, and the byte
level code (`DepthReader`, `LogRotate`) works on bytes.

`dafny verify dfyconfig.toml` checks everything.

## Properties that hold only under a condition

- Quota: the comment in `cmd/anubis/quota.go` promises an overshoot of at most
  one per concurrent node. The bound over all runs is L + N - 1 plus the number
  of revivals. A revival is a write that took no lock because its soul existed
  and that lands after the soul was deleted. The bound is reached for every
  N >= 1, L >= 1 and number of revivals (`QuotaBoundIsReached`).
- Memory and storage: Resync and the start of the alert manager list channels and
  rules with an empty workspace, and storage takes that for `default`
  (`internal/storage/storage.go:819-823`, `internal/storage/storage.go:905-909`).
  Records of other workspaces are not listed. A drained node holds for every ID the
  last write since it started or last restored a snapshot, and otherwise the record
  of the default workspace (`DrainedMemory`). It mirrors storage exactly when every
  stored record is that one (`DrainedMirrorsIff`). When every ID is used in one
  workspace, that is: every stored record is in the default workspace or was written
  since the start or the last snapshot (`DrainedMemoryEqualsStorage`). A channel of
  another workspace is lost by a snapshot that changes nothing
  (`RestoreLosesRecord`).
- IDs in two workspaces: memory knows records by ID alone. Storing and handling a
  command keeps the mirror exactly when no other workspace stores the ID, or all
  that do store the very record that is set (`CommandKeepsMirrorIff`,
  `SharedIdLosesRecord`). Such an ID arises when a channel that was stored with an
  empty workspace, so under `default`, is updated: the ownership check lets the
  update through (`internal/api/rest.go:1879`), and the channel is saved under the
  caller's workspace as well.
- Seeding: writes the streak for every registered rule, while a replay counts only
  for rules that are enabled and apply, and notes the status only if there is one.
  Each active rule gets the same streak and clock; the whole states are equal
  exactly when the streak is zero or all rules are active, and some rule is active
  or there is no history (`SeedEqualsReplayIff`).
- Persisted history: a current judgment that is not stored yet is counted exactly
  unless a stored one has its time and status (`PersistedTallyIff`,
  `TwinHidesCurrent`).
- Dropped alerts: every later decision is as if the alert had never been offered,
  exactly unless, between its claim and its drop, a record of its key arrived that
  is inside the cooldown, none arrived that is newer than the claim, and no
  release of the key arrived (`DropUnobservableIff`, `HiddenLoadIsObservable`).
  That is: the latest record of the key that arrived in between is not in
  (now - cooldown, now], or a release arrived.
  A release is skipped for an event without a rule ID, so such a drop suppresses
  its key for a whole window (`DropWithoutRuleIdIsObservable`).
- Remote dedup releases delete unconditionally. The cooldown survives one exactly
  when the window of every unreleased alert of the key is over
  (`UnloadSafeIffWindowPast`), and over every run whose remote releases are like
  that (`CooldownNeverViolated`).
- Dedup keys join rule, soul and status with colons. Without colons in the IDs a
  key stands for one alarm (`OneKeyPerAlarm`); with them two alarms can share one
  (`ColonIdsCollide`), though never across statuses (`KeyDeterminesStatus`).
- One unresolved incident per rule and soul: a run keeps it exactly when no commit
  puts an acknowledgement over a resolved incident while another incident of the
  pair is unresolved (`OneUnresolvedIffNoClash`). Such a commit happens
  (`AckRaceBreaksUniqueness`), and cannot when writes are atomic and hit only
  unresolved incidents (`AtomicWritesKeepOne`).
- Escalation pace: a commit leaves the checker's outstanding work justified exactly
  when it does not lift an incident above the level an outstanding task saw
  (`CommitKeepsCheckerIff`). While no commit does, the pace is kept with any number
  of writes in flight (`EscalationIsPaced`); one write per incident is enough for
  that (`OneWriteNeverOvertakes`). A commit that does can lose the pace
  (`OverlappingWritesBreakPace`). A run keeps the pace throughout exactly when, at
  every increment, the next stage existed and was over when the send began
  (`RunIsPacedIff`).
- Channel round trip: masked numbers, booleans and list items do not come back;
  the round trip is the identity exactly on restorable configs
  (`ChannelRoundTrip`).
- Route substitution reproduces the path exactly when no parameter name captured
  two different texts (`SubstitutionReproducesPath`).

## Model

| member | source | states |
|---|---|---|
| QuotaAdmission.QuotaGuard.AdmitSoul | cmd/anubis/quota.go:49-75 | The interval floor, an existing soul, a missing limit and the count decide in that order; the lookup may have read an older replica than the count; only a counted create leaves the mutex held, every refusal gives it back, and a write that needs no mutex goes ahead while another holds it |
| QuotaAdmission.DecisionMeans | cmd/anubis/quota.go:49-75 | With quotas on, a write is refused exactly when its interval is positive, below the floor and not the one the soul has, or when it is a create and a set limit is reached; any other create under a limit holds the mutex |
| QuotaAdmission.QuotaGuard.Release | cmd/anubis/server.go:1123-1149 | The caller gives the mutex back after its write |
| QuotaAdmission.LastLow | cmd/anubis/quota.go:63-74 | The longest log prefix at which a counting node would still admit; at every longer prefix it refuses |
| QuotaAdmission.CountAppend | cmd/anubis/server.go:1092-1121 | One committed command adds at most one soul to a workspace, and none when it deletes, is for another workspace or rewrites a stored soul |
| QuotaAdmission.QuietStep | cmd/anubis/quota.go:49-75 | Admissions, aborts, local applies and unlocks never make a node able to overshoot that was not able before |
| QuotaAdmission.CommitStep | cmd/anubis/server.go:1123-1149 | A committing node uses up its one chance to overshoot since the workspace was last below the limit |
| QuotaAdmission.StepKeepsInv | cmd/anubis/quota.go:23-75 | Every step of every node keeps: souls plus nodes that may still overshoot is at most L - 1 + N plus revivals |
| QuotaAdmission.RunKeepsInv | cmd/anubis/quota.go:23-75 | The same in every state of every run, with lock-free writes on busy nodes and lookups made before waiting for the mutex |
| QuotaAdmission.QuotaOvershootBound | cmd/anubis/quota.go:23-75 | In every run of N nodes a workspace that starts below L never holds more than L + N - 1 souls plus revivals, so never more than L on one node without revivals; one that starts over the limit does not grow past it either |
| QuotaAdmission.QuotaBoundIsReached | cmd/anubis/quota.go:23-75 | For every N >= 1, L >= 1 and R there is a workspace below its limit and a run with R revivals that ends with exactly L + N - 1 + R souls |
| ClusterLoops.StepKeepsInv | cmd/anubis/cluster_work.go:495-521 | Every step keeps: a non-empty queue has a token, a pending sender or a loop about to swap; and handled, current batch and queue together are what was appended |
| ClusterLoops.NoLostWakeup | cmd/anubis/cluster_work.go:495-521 | In every interleaving no wake-up is lost |
| ClusterLoops.HandledInAppendOrder | cmd/anubis/cluster_work.go:495-521 | Events are handled exactly once in append order, and when neither the loop nor a sender can move all of them have been |
| ClusterLoops.EventDistanceOverRun | cmd/anubis/cluster_work.go:505-521 | Over any stretch of a run each step of the loop brings a queued event closer and no other goroutine sets it back |
| ClusterLoops.EventHandledWithin | cmd/anubis/cluster_work.go:505-521 | Whatever else is scheduled, an appended event is handled within a bound on the loop's own steps |
| ClusterLoops.OwedPassStarts | cmd/anubis/cluster_work.go:161-191 | A due ownership pass stays due, through debounce and drain, until one starts, and gets closer with each step of the loop |
| ClusterLoops.TriggerIsFollowedByPass | cmd/anubis/cluster_work.go:161-191 | A completed Trigger is followed by a pass that starts after it, within five steps of the loop |
| ClusterLoops.ChangeReachesPass | cmd/anubis/cluster_work.go:161-191 | A soul or journey change, or a snapshot, once appended is handled and then followed by a pass that starts after the handling |
| ClusterLoops.SoulOrJourneyWriteReachesPass | cmd/anubis/cluster_work.go:548-556 | That is every command on a key workspace/souls/... or workspace/journeys/... outside the judgment table, whoever proposed it |
| ClusterLoops.OnlyChangesReplan | cmd/anubis/cluster_work.go:528-561 | Handling any other command asks for no pass |
| AlertSync.AlertTables.LoadChannel | internal/alert/replication.go:17-24 | A channel replaces the one with the ID it carries; one without an ID is ignored |
| AlertSync.AlertTables.UnloadChannel | internal/alert/replication.go:27-31 | The channel is gone and nothing else changed |
| AlertSync.AlertTables.LoadRule | internal/alert/replication.go:34-41 | A rule replaces the one with the ID it carries; one without an ID is ignored |
| AlertSync.AlertTables.UnloadRule | internal/alert/replication.go:44-48 | The rule is gone and nothing else changed |
| AlertSync.AlertTables.ApplyAlertRecord | cmd/anubis/cluster_work.go:528-603 | A foreign set under alerts/channels or alerts/rules that decodes files the record under the ID it carries in that table, a foreign delete removes the ID of the key from it; local commands, other keys and values that do not decode have no effect |
| AlertSync.TargetMeans | cmd/anubis/cluster_work.go:548-590 | Storage and memory take exactly the commands on workspace/alerts/channels/id for channels and on workspace/alerts/rules/id for rules |
| AlertSync.AlertTables.Install | internal/alert/replication.go:66-99 | Each listing that could be read replaces its table; one that failed leaves it |
| AlertSync.ListedIsListing | internal/alert/replication.go:74-88 | Installing a listing, in any order, leaves under every ID one of the listed records with that ID and no other IDs |
| AlertSync.ListingFinds | internal/storage/storage.go:819-841 | Listing a good storage table finds for every ID the record of the default workspace and nothing of any other |
| AlertSync.SettledDropFirst | cmd/anubis/cluster_work.go:528-603 | Handling the oldest pending event does not change what any ID ends up as |
| AlertSync.StoreOne | cmd/anubis/cluster_work.go:489-503 | Storing a command while its report is still to come keeps: every ID ends up at its last write since the last listing, or at the default workspace's record |
| AlertSync.ApplyKeepsInv | cmd/anubis/cluster_work.go:489-503 | So does storing a whole batch before its reports are queued |
| AlertSync.HandleKeepsInv | cmd/anubis/cluster_work.go:528-603 | So does handling an event, even one older than the storage a Resync has read |
| AlertSync.ReadKeepsInv | internal/alert/replication.go:66-88 | So does a storage read of Resync, also one in the middle of a snapshot |
| AlertSync.RestoreSettles | cmd/anubis/cluster_work.go:528-534 | Once a snapshot is pending, whatever it wrote so far, every ID ends up at what the default workspace stores for it |
| AlertSync.StepKeepsInv | cmd/anubis/cluster_work.go:489-603 | Every step keeps it, a snapshot replaced piece by piece and the three stages of Resync included, and the last write of an ID is in storage |
| AlertSync.DrainedMemory | internal/alert/replication.go:66-88 | In every interleaving, a node that proposes no channel or rule change and has handled everything holds for every ID exactly the last write since its start or last snapshot, in whatever workspace, and otherwise the default workspace's record |
| AlertSync.DrainedMirrorsIff | cmd/anubis/cluster_work.go:489-603 | Such a node mirrors storage exactly when every stored record is that one |
| AlertSync.DrainedMemoryEqualsStorage | cmd/anubis/cluster_work.go:489-603 | When every ID is used in one workspace: exactly when every stored record is in the default workspace or was written since the start or the last snapshot |
| AlertSync.ResyncMirrorsIff | internal/alert/replication.go:66-88 | One Resync leaves memory mirroring a store exactly when every record equals the default workspace's record of its ID |
| AlertSync.ResyncMirrorsUniqueIff | internal/alert/replication.go:66-88 | With unique IDs: exactly when every stored record is in the default workspace |
| AlertSync.RestoreLosesRecord | internal/alert/replication.go:66-88 | For any other workspace, ID and body there is a run in which memory holds the channel and a snapshot that changes nothing makes it drop the channel, which storage keeps |
| AlertSync.CommandKeepsMirrorIff | cmd/anubis/cluster_work.go:564-590 | Storing and handling a foreign command keeps the mirror exactly when no other workspace stores the ID, or those that do store the record it sets |
| AlertSync.SharedIdLosesRecord | cmd/anubis/cluster_work.go:564-575 | For any two workspaces and any ID used in both, deleting the record of one leaves memory without the record of the other, which storage still holds |
| Dedup.KeyDeterminesStatus | internal/alert/replication.go:117-129 | A key determines its status although IDs may contain the separator |
| Dedup.OneKeyPerAlarm | internal/alert/replication.go:117-129 | For IDs without the separator two events have one key exactly when rule, soul and kind agree, or status where there is no kind |
| Dedup.ColonIdsCollide | internal/alert/replication.go:117-129 | With separators in IDs two alarms can share a key |
| Dedup.Manager.IsDuplicate | internal/alert/manager.go:1331-1388 | An alert is a duplicate exactly when the record under dedup:rule:soul:kind, or status where there is no kind, has that status and is younger than the cooldown, five minutes if unset; otherwise record and claim become its own, with count 1 and both times now |
| Dedup.Manager.ReleaseDedup | internal/alert/manager.go:922-947 | Record and claim go exactly when the event holds the claim |
| Dedup.Manager.EnqueueAlert | internal/alert/manager.go:649-663 | Duplicate, or claimed and then queued or released, with whatever other nodes shared between claim and queue applied in between |
| Dedup.Manager.Dispatch | internal/alert/manager.go:895-920 | The reservation is given back exactly when some channel was attempted and none delivered |
| Dedup.Manager.LoadDedupState | internal/alert/replication.go:191-207 | An older record is ignored, a newer one also ends the local claim, an equally old one keeps it |
| Dedup.Manager.UnloadDedupState | internal/alert/replication.go:210-215 | Record and claim are deleted whoever holds them |
| Dedup.WindowDecides | internal/alert/manager.go:1348-1374 | In a sound state the in-window status-change branch is never taken |
| Dedup.TryEffect | internal/alert/manager.go:1331-1388 | A try changes nothing away from its key and nothing at all when it is a duplicate, and otherwise leaves its own time and claim |
| Dedup.DropKeepsClaimInv | internal/alert/manager.go:657-662 | A dropped alert leaves no claim behind, whatever arrived since it took its own |
| Dedup.StepKeepsClaimInv | internal/alert/manager.go:928-947 | Every step keeps, also between claim and queue: a claim implies a record whose time is that of the claiming alert, and each record has the status of its key |
| Dedup.RunKeepsClaimInv | internal/alert/manager.go:928-947 | The same in every state of every run, remote releases included |
| Dedup.ReleaseDeletesOnlyOwnRecord | internal/alert/manager.go:922-947 | However late a delivery fails, and when an alert is dropped, the release deletes nothing but a record with that alert's own time |
| Dedup.ClaimKeepsSpacing | internal/alert/manager.go:1331-1388 | A claim keeps all unreleased alerts of a key a cooldown apart and covered by a record |
| Dedup.SettleKeepsSpacing | internal/alert/manager.go:657-662 | So does queueing or dropping the alert that holds it |
| Dedup.FailKeepsSpacing | internal/alert/manager.go:922-947 | So does a failed delivery of any accepted alert |
| Dedup.LoadKeepsSpacing | internal/alert/replication.go:191-207 | So does a replicated record, whenever it arrives |
| Dedup.UnloadKeepsSpacing | internal/alert/replication.go:210-215 | So does a remote release of a key whose unreleased alerts are all past |
| Dedup.CooldownNeverViolated | internal/alert/manager.go:1331-1388 | Over every run of claims, drops, failures, loads and such releases in any interleaving, two unreleased alerts with one key are at least the cooldown apart, five minutes if unset |
| Dedup.SameAlarmsAreSpaced | internal/alert/manager.go:1331-1388 | In the events' own terms: two unreleased alerts of one rule and soul with one kind, or one status where there is no kind, are at least the rule's cooldown apart |
| Dedup.SuppressionIsJustified | internal/alert/manager.go:1331-1388 | The converse on a node of its own: an alert is suppressed only while an unreleased alert of its key is inside the cooldown |
| Dedup.SuppressedAlarmWasRaised | internal/alert/manager.go:1331-1388 | In the events' own terms: some earlier, unreleased alert has the same rule and soul and the same kind, or status where there is no kind, and was accepted less than the cooldown ago |
| Dedup.UnloadSafeIffWindowPast | internal/alert/replication.go:210-215 | After a remote release the next alert is accepted at once, and the cooldown survives exactly when no unreleased alert of the key is inside it |
| Dedup.LoadNeverLowers | internal/alert/replication.go:191-207 | A load never lowers a record's time and never takes or changes a claim |
| Dedup.LoadsEndAtMaximum | internal/alert/replication.go:191-207 | Any sequence of loads ends at the maximum of the times offered for the key |
| Dedup.LoadOrderIrrelevant | internal/alert/replication.go:191-207 | Any order of the same loads leaves every key at the same time |
| Dedup.SimilarDecisions | internal/alert/manager.go:1331-1388 | States that differ only in records that can suppress nothing any more decide every continuation alike |
| Dedup.ArrivalsWhileClaimed | internal/alert/replication.go:191-215 | What arrives while an alert holds its claim, compared with the same arrivals had it never been offered: the states agree, or the claim hides exactly the arrived records |
| Dedup.DropUnobservableIff | internal/alert/manager.go:649-663 | After a claim, any arrivals and the drop, every later decision is the one made had the alert never been offered, exactly unless the latest record of the key that arrived is inside the cooldown and no newer than the claim, and no release arrived |
| Dedup.DropIsUnobservable | internal/alert/manager.go:649-663 | So a drop with no arrival in between leaves no trace |
| Dedup.HiddenLoadIsObservable | internal/alert/manager.go:649-663 | In any state that does not suppress the alert, one record in that range makes the drop observable: the next alert is sent although it would have been a duplicate |
| Dedup.DropWithoutRuleIdIsObservable | internal/alert/manager.go:928-947 | In any state, dropping an alert without a rule ID suppresses its key exactly for one window, where nothing was suppressed before |
| Seed.Evaluation.UpdateFailureStreak | internal/alert/manager.go:1146-1168 | A dead judgment raises the counter of its rule and soul by one up to a million, any other removes it; other counters stay |
| Seed.Evaluation.NoteStatus | internal/alert/manager.go:1171-1183 | The clock restarts exactly when the status changes |
| Seed.Evaluation.ObserveJudgment | internal/alert/manager.go:516-534 | One judgment counts once for every rule that is enabled and applies, and notes the status exactly when there is one |
| Seed.SortByTime | internal/alert/replication.go:242 | The judgments in time order, none lost or repeated |
| Seed.Collect | internal/alert/replication.go:236-241 | The judgments that are not nil, in their order |
| Seed.WalkBack | internal/alert/replication.go:256-267 | The backward walk stops at the run of equal statuses that ends the history |
| Seed.Evaluation.SeedFromJudgments | internal/alert/replication.go:232-287 | The seeded state is that of some time-ordered permutation of the judgments given |
| Seed.ReplayIsTrailingRun | internal/alert/manager.go:1146-1183 | Replaying a history forwards gives the capped length and the start of its last run |
| Seed.StreakCountsDead | internal/alert/manager.go:1146-1168 | A history that ends in exactly n dead judgments has streak n, at most a million |
| Seed.ReplayFromCleared | internal/alert/manager.go:1146-1183 | Replaying a history on a state without the soul leaves its streak for every active rule, its status clock, and nothing else |
| Seed.SortedPermutationUnique | internal/alert/replication.go:242 | With distinct timestamps the unstable sort has one outcome |
| Seed.SeedEqualsReplay | internal/alert/replication.go:228-287 | Taking over a soul with any permutation of a history with distinct non-zero timestamps, nil entries included, leaves for every registered rule the streak and status clock that the replay gives, which is what an active rule has after it |
| Seed.SeedEqualsReplayIff | internal/alert/replication.go:228-287 | The whole state is that of the replay exactly when the streak is zero or every rule is active, and some rule is active or there is no history |
| Seed.SeedFillsGaps | internal/alert/replication.go:232-287 | Without replacing, a seed keeps every counter and clock there is and gives the replayed ones to what is missing |
| Seed.OtherSoulsUntouched | internal/alert/manager.go:1146-1183 | Neither judging nor seeding a soul changes a counter or clock of another, for soul IDs without a colon |
| Seed.SuffixStreakNoLarger | internal/alert/replication.go:228-287 | Less history never seeds a longer failure streak |
| Seed.SuffixStartNoEarlier | internal/alert/replication.go:228-287 | Less history seeds the same status with a start no earlier |
| Incidents.Manager.RecordIncident | internal/alert/manager.go:670-700 | The event joins an unresolved incident of its rule and soul, or opens one at level 0 that starts now when there is none |
| Incidents.Manager.FindUnresolved | internal/alert/manager.go:672-686 | Some unresolved incident of the pair is found exactly when there is one |
| Incidents.Manager.AutoResolveOpenIncident | internal/alert/manager.go:719-752 | One unresolved incident of the pair is resolved and nothing else changes |
| Incidents.Manager.BeginUpdate | internal/alert/manager.go:1692-1710 | A copy with the new status, time and user is made exactly when the incident exists in the caller's workspace, where an empty one is the default; memory is untouched |
| Incidents.Manager.FinishUpdate | internal/alert/manager.go:1725-1740 | The stored copy is installed with the events that memory has by then |
| Incidents.Manager.CheckEscalations | internal/alert/manager.go:1865-1939 | Every unresolved, unacknowledged incident that has a stage left whose wait, fifteen minutes if unset, is over; an acknowledged one exactly if that stage is not_resolved; nothing else, each once |
| Incidents.Manager.FinishEscalation | internal/alert/manager.go:1941-2040 | Level and time move on whatever the incident has become meanwhile |
| Incidents.DueMeans | internal/alert/manager.go:1903-1939 | The same of one incident, both ways, in its fields |
| Incidents.RunKeepsAcksDated | internal/alert/manager.go:1663-1740 | In every state of every run an acknowledged incident has an acknowledgement time, also in copies in flight |
| Incidents.CheckRespectsAcknowledgement | internal/alert/manager.go:1865-1939 | In every run a check gives an incident a task exactly when it is unresolved, its stage is over and, if acknowledged, that stage is not_resolved |
| Incidents.SendRespectsAcknowledgement | internal/alert/manager.go:1865-1985 | Whatever is sent was decided by an earlier check, at which the incident was unresolved and, if acknowledged, at a not_resolved stage |
| Incidents.StepKeepsEvents | internal/alert/manager.go:670-752 | Every step keeps: each triggered event is in exactly one place of exactly one incident |
| Incidents.EventsExactlyOnce | internal/alert/manager.go:1692-1740 | However operator writes, recoveries and escalations interleave with triggers, no event is lost or duplicated |
| Incidents.CommitKeepsOneIff | internal/alert/manager.go:1692-1740 | Installing a write keeps one unresolved incident per pair exactly unless it reopens a resolved incident that has an unresolved rival |
| Incidents.OneUnresolvedPerPair | internal/alert/manager.go:670-752 | In every run without such a commit there is at most one unresolved incident per rule and soul |
| Incidents.OneUnresolvedIffNoClash | internal/alert/manager.go:670-752 | A run has at most one unresolved incident per pair throughout exactly when it has no such commit |
| Incidents.AtomicWritesKeepOne | internal/alert/manager.go:1663-1740 | In every run whose operator writes are atomic and hit only unresolved incidents there is at most one unresolved incident per pair |
| Incidents.AckRaceBreaksUniqueness | internal/alert/manager.go:1663-1740 | An acknowledgement in flight over a recovery and a new trigger leaves two unresolved incidents, for any rule policy and any two IDs |
| Incidents.DueHasWaited | internal/alert/manager.go:1903-1939 | What the checker decides to escalate has waited through all stages up to its own |
| Incidents.EscalatedIsPaced | internal/alert/manager.go:1941-2040 | The increment keeps the pace although the level may have been set back since the check |
| Incidents.IncrementIsPacedIff | internal/alert/manager.go:2019-2023 | Whatever happened since the check, the increment keeps the pace exactly when the incident's next stage exists and was over at the time of the send |
| Incidents.CommitKeepsCheckerIff | internal/alert/manager.go:1725-1740 | A commit leaves the checker's outstanding work justified exactly when it does not lift an incident above the level an outstanding task saw |
| Incidents.RunKeepsPace | internal/alert/manager.go:1865-2040 | The pace of incidents, of copies in flight and of the checker's work holds in every state of every run without such a commit |
| Incidents.EscalationIsPaced | internal/alert/manager.go:1865-2040 | With any number of writes in flight, none of which overtakes the checker: an incident at level n has at least n stages and was last escalated no earlier than its start plus the first n waits, fifteen minutes for a zero wait, even when a write commits between check, send and increment |
| Incidents.InboxStaysPaced | internal/alert/manager.go:1865-2040 | A step keeps the inbox paced exactly unless it is an increment whose stage does not exist or was not over when its send began |
| Incidents.RunIsPacedIff | internal/alert/manager.go:1865-2040 | A run keeps every incident paced throughout exactly when, at every increment, the next stage existed and was over when the send began |
| Incidents.OneWriteNeverOvertakes | internal/alert/manager.go:1692-1740 | With at most one write in flight per incident no commit overtakes the checker |
| Incidents.OverlappingWritesBreakPace | internal/alert/manager.go:1692-1740 | A run in which one does: level 2 is reached at time 2 although the waits sum to 101 |
| FailureRate.Retention | internal/alert/failure_rate.go:53-60 | No enabled rule has a wider window |
| FailureRate.ComputeRetention | internal/alert/failure_rate.go:53-60 | The loop over the rules computes it |
| FailureRate.OccurrenceWindow | internal/alert/failure_rate.go:27-38 | The window of a rate condition at any nesting depth is within the retention of its rule |
| FailureRate.PruneInPlace | internal/alert/failure_rate.go:73-79 | The array's prefix afterwards is the samples not older than the cutoff, in order |
| FailureRate.RateBuffer.NoteRateJudgment | internal/alert/failure_rate.go:49-87 | The key's buffer is pruned and extended by a judgment not seen before, and is dropped when no enabled rule needs one |
| FailureRate.CountWindow | internal/alert/failure_rate.go:89-113 | The number of completed checks at indices inside the closed window, and of those among them whose status is dead |
| FailureRate.TallyCounts | internal/alert/failure_rate.go:89-107 | The tally every verdict uses is the size of those two sets of indices |
| FailureRate.FailureRateMeans | internal/alert/failure_rate.go:89-113 | With exact quotients a failure-rate condition holds exactly when some check of the window failed and either no threshold is set or failures are at least the threshold percentage of the checks; five minutes is the window if none is set |
| FailureRate.PercentageMeans | internal/alert/failure_rate.go:161-203 | With exact quotients a percentage condition compares the failed, or for uptime the other, checks per hundred with the threshold as the operator says |
| FailureRate.EmptyBufferMeans | internal/alert/failure_rate.go:145-152 | An empty buffer decides as one that holds the current judgment only |
| FailureRate.OtherMetrics | internal/alert/failure_rate.go:190-203 | Packet loss is compared where it was measured, and an unknown metric never fires |
| FailureRate.OperatorNames | internal/alert/manager.go:1602-1620 | What each operator compares, under each of its names; anything else is greater-than |
| FailureRate.CompoundMeans | internal/alert/manager.go:1517-1551 | Or, and, majority and at-least, in terms of how many parts hold; an empty compound never holds |
| FailureRate.BufferIsRecentHistory | internal/alert/failure_rate.go:49-87 | After any history with non-decreasing times and distinct IDs the buffer is exactly the part of it inside the retention of the latest judgment |
| FailureRate.EvaluateAgrees | internal/alert/manager.go:1517-1600 | Buffers that answer every window up to the retention alike give every condition tree the same verdict, however quotients are rounded |
| FailureRate.PrunedConditionVerdict | internal/alert/failure_rate.go:89-152 | Every rate condition at any depth of an enabled rule decides on the pruned buffer as on the whole history, however quotients are rounded |
| FailureRate.PrunedRuleVerdict | internal/alert/manager.go:1214-1265 | So does the rule as a whole, whatever its other conditions say, and also when no buffer is kept |
| FailureRate.HistorySamples | internal/alert/failure_rate.go:121-144 | The listed judgments, and the current one exactly when none of them is taken for it |
| FailureRate.TallyOfPermutation | internal/alert/failure_rate.go:89-107 | The order of the listing does not matter |
| FailureRate.PersistedTally | internal/alert/failure_rate.go:121-144 | When the current judgment is stored already, the persisted window counts what the whole history counts |
| FailureRate.PersistedTallyIff | internal/alert/failure_rate.go:121-144 | When it is not, the window counts what the whole history with it counts, exactly unless its status counts and a stored judgment has its time and status |
| FailureRate.TwinHidesCurrent | internal/alert/failure_rate.go:134-143 | Any two checks of one counted status at one moment: the second is not counted while it is not stored |
| FailureRate.PersistedVerdict | internal/alert/failure_rate.go:89-203 | With equal counts both rate conditions decide on the persisted window as on the whole history |
| RateLimit.OpenedAt | internal/api/rest.go:3781-3788 | Named keys have a running window, the current one if it is not over; other keys are untouched |
| RateLimit.ChargedAt | internal/api/rest.go:3794-3801 | On distinct keys each named counter goes up by one and nothing else changes |
| RateLimit.ChargeAll | internal/api/rest.go:3794-3801 | All quotas are charged and one with least headroom is returned |
| RateLimit.Limiter.TakeRateLimitQuotas | internal/api/rest.go:3779-3802 | Accepted exactly when every named quota is below its limit, charging all or none; returns the first exhausted quota or one with least headroom |
| RateLimit.Limiter.Cleanup | internal/api/rest.go:3837-3850 | Exactly the entries whose window is over are deleted |
| RateLimit.TakenAt | internal/api/rest.go:3779-3802 | What one request does to each key, in terms of the state before; a new window lasts a minute |
| RateLimit.RunKeepsInv | internal/api/rest.go:3779-3802 | Over any run a counter holds exactly the accepted requests of its own window, windows do not overlap and none exceeds the limit |
| RateLimit.WindowLimit | internal/api/rest.go:3779-3802 | No window of a key ever accepts more than the key's limit |
| RateLimit.IntervalLimit | internal/api/rest.go:3779-3802 | No half-open interval of one window length ever accepts more than twice the limit |
| RateLimit.RefusalIsJustified | internal/api/rest.go:3779-3802 | The converse: a refused request names a key that used up its whole limit in the window it belongs to |
| RateLimit.CleanupIsUnobservable | internal/api/rest.go:3837-3850 | Whenever cleanups happen, every request is answered, and leaves the states it reports, as if there were none |
| DepthReader.Reader.Read | internal/api/rest.go:70-104 | Delivers the bytes before the first bracket past the limit and fails from then on; otherwise all bytes and the upstream error |
| DepthReader.Chunked | internal/api/rest.go:59-104 | Scanning two chunks in turn is scanning their concatenation |
| DepthReader.Drain | internal/api/rest.go:59-104 | What a reader delivers depends only on the bytes, not on the chunks |
| DepthReader.TooDeepIffDeep | internal/api/rest.go:34-35 | A text has a first bracket past the limit exactly when it nests deeper |
| DepthReader.ScansValue | internal/api/rest.go:70-104 | A well-formed value, with any strings and escapes, leaves the scanner as it found it or stops at its first bracket past the limit |
| DepthReader.PassesIffShallow | internal/api/rest.go:59-104 | A JSON text passes unchanged exactly when it nests at most 32 levels; otherwise exactly the bytes before the first bracket that exceeds it pass |
| Routing.JoinSplit | internal/api/rest.go:4075-4093 | Joining the segments of a path gives the path |
| Routing.SplitJoin | internal/api/rest.go:4075-4093 | Splitting joined segments gives the segments |
| Routing.MoreSpecificRoute | internal/api/rest.go:238-252 | The loop decides the lexicographic order of parameter flags, then of the text; the next three rows say what that means for segments |
| Routing.LiteralBeatsParameter | internal/api/rest.go:238-252 | At the first segment where one pattern has a literal and the other a parameter, the literal comes first, whatever follows |
| Routing.ShorterComesFirst | internal/api/rest.go:238-252 | Without such a segment the pattern with fewer segments comes first |
| Routing.TextDecidesLast | internal/api/rest.go:238-252 | Patterns of one shape are ordered by their text |
| Routing.MoreSpecificIsStrictTotal | internal/api/rest.go:238-252 | The order is irreflexive, asymmetric, transitive and total on all patterns |
| Routing.MatchRoute | internal/api/rest.go:4075-4093 | Matches exactly when segment counts agree and literals are equal, and returns the last capture of each name |
| Routing.SubstitutionReproducesPath | internal/api/rest.go:4075-4093 | Putting the captures back reproduces the path exactly when no name captured two texts, so always for distinct names |
| Routing.InstanceMatches | internal/api/rest.go:4075-4093 | A path made by filling parameters into a pattern matches it and captures exactly those parameters |
| Routing.SortIn | internal/api/rest.go:3930-3943 | The bucket with one more pattern, most specific first |
| Routing.FirstMatch | internal/api/rest.go:3997-4012 | The first pattern of the bucket that matches and has the method, with its captures |
| Routing.FirstCandidateIsChosen | internal/api/rest.go:3997-4012 | In a sorted bucket that holds every candidate the first one is more specific than all others |
| Routing.ChoiceIsUnique | internal/api/rest.go:3997-4012 | Tables with the same registrations have one choice for a request |
| Routing.ChosenHasLiterals | internal/api/rest.go:3997-4012 | The chosen pattern has no parameter where another candidate, the same up to there, has a literal |
| Routing.Router.Handle | internal/api/rest.go:3917-3943 | The registration is in the table, and buckets stay sorted and complete |
| Routing.Router.Dispatch | internal/api/rest.go:3984-4012 | An exact route wins; otherwise the most specific matching pattern that has the method, with its captures, or none if there is none |
| Routing.RegisteredIffListed | internal/api/rest.go:3917-3943 | After any registrations a route is there exactly when it was registered, with a handler registered for it |
| Routing.RegistrationOrderIrrelevant | internal/api/rest.go:3917-3943 | In whatever order routes were registered a request resolves to the same pattern, and to the same handler unless one was registered twice |
| Secrets.RedactedIsPreserved | internal/api/secret_redaction.go:92-97 | The redacted form of any secret asks for it to be kept |
| Secrets.MergeSecretStringMap | internal/api/secret_redaction.go:555-568 | Placeholders take the stored value, other values win, missing keys stay |
| Secrets.MergeKeepsOrTakes | internal/api/secret_redaction.go:555-568 | Key by key: a value that was sent wins, a placeholder keeps the stored one, keys that were not sent stay, and nothing sent keeps everything |
| Secrets.BlankMeans | internal/api/secret_redaction.go:92-97 | Blank is white space only |
| Secrets.PlaceholderMeans | internal/api/secret_redaction.go:543-546 | A placeholder is white space around nothing, [REDACTED] or three stars |
| Secrets.MaskThenMerge | internal/api/journey_redaction.go:44-55 | Merging the masked form of any map, nil included, gives the map back |
| JourneyRedaction.RedactJourney | internal/api/journey_redaction.go:12-42 | Field by field: step count and map keys stay; every variable, header and response header value, body, send and sendHex that is not white space is [REDACTED]; so is a secret target; every other field is unchanged |
| JourneyRedaction.ChangedMeans | internal/api/journey_redaction.go:57-88 | An update counts as changed exactly when the number of steps, a sent variable, or a step differs, by name, type, unmasked target, method or redirects |
| JourneyRedaction.UnchangedJourneyKeeps | internal/api/journey_redaction.go:57-102 | An update that is not is accepted: edits win and placeholders keep what is stored, in every field of every step |
| JourneyRedaction.AcceptedChangeIsMaskFree | internal/api/journey_redaction.go:57-134 | A changed one is accepted exactly when no field of what is stored is a mask |
| JourneyRedaction.MergeJourneySecrets | internal/api/journey_redaction.go:57-102 | The two passes restore targets first, then either merge everything or refuse masks |
| JourneyRedaction.StepRoundTrip | internal/api/journey_redaction.go:57-102 | A redacted step counts as not moved and merges back to itself |
| JourneyRedaction.JourneyRoundTrip | internal/api/journey_redaction.go:12-102 | Saving the redacted view of any journey unchanged succeeds and restores every field |
| JourneyRedaction.ChangedJourneyRestoresTargetsOnly | internal/api/journey_redaction.go:57-134 | When a destination, the step count or a variable changed: masked targets of steps that kept name and type are filled from storage, nothing else is, and the update is accepted exactly when no other mask was sent |
| ChannelRedaction.MergeSecretAnyMap | internal/api/secret_redaction.go:570-600 | Strings and maps are merged recursively, everything else is taken as sent |
| ChannelRedaction.MergeChannelSecrets | internal/api/secret_redaction.go:648-667 | Another type is taken as sent, a changed destination is refused if it holds placeholders, otherwise configs merge |
| ChannelRedaction.MergedValueKeeps | internal/api/secret_redaction.go:570-600 | At any depth a placeholder over a stored string keeps it, maps merge key by key, and anything else is taken as sent |
| ChannelRedaction.ChannelUpdateKeeps | internal/api/secret_redaction.go:648-667 | A channel of another type, or with another url or webhook_url, is stored as sent, and the latter is refused exactly when it holds a placeholder; any other keeps the stored config where a placeholder or nothing was sent |
| ChannelRedaction.FixedIffSettled | internal/api/secret_redaction.go:173-236 | Redaction leaves a value alone exactly when every leaf is blank, null or the mask |
| ChannelRedaction.RedactedIsSettled | internal/api/secret_redaction.go:173-236 | A redacted view holds nothing but blanks, nulls and masks, at any depth |
| ChannelRedaction.ValueRoundTrip | internal/api/secret_redaction.go:570-600 | A nested value comes back from its mask exactly when its numbers, booleans and lists had nothing to mask |
| ChannelRedaction.ConfigRoundTrip | internal/api/secret_redaction.go:506-516 | The same for a whole config, which must be present |
| ChannelRedaction.ChannelRoundTrip | internal/api/secret_redaction.go:648-697 | Saving the redacted view of a channel unchanged is accepted, and is the identity exactly for restorable configs, so for all whose leaves are strings or null |
| Export.WithinSplits | internal/api/reports.go:542-576 | Adjacent windows of a chronological history concatenate to the whole window |
| Export.WithinIsChronological | internal/api/reports.go:542-576 | A window holds exactly the judgments of its range, in time order, each once |
| Export.EmitChunk | internal/api/reports.go:555-573 | One hour is emitted oldest first until the limit or a failing callback |
| Export.StreamJudgments | internal/api/reports.go:542-576 | The judgments of [from, to) oldest first, each once, cut to the first limit, truncated exactly when more remain; a failing callback ends it after the calls that succeeded |
| LogRotate.ShiftFiles | cmd/anubis/logrotate.go:75-92 | The renames move every file up by one, none overwritten before it moved, only the oldest lost |
| LogRotate.ShiftedRender | cmd/anubis/logrotate.go:75-92 | On disk that is exactly a rotation of the files |
| LogRotate.RotatingFile.constructor | cmd/anubis/logrotate.go:27-39 | 100 MiB and 5 backups unless set; an empty log and no backup |
| LogRotate.RotatingFile.Rotate | cmd/anubis/logrotate.go:75-92 | Disk and size agree with the rotated files |
| LogRotate.RotatingFile.Write | cmd/anubis/logrotate.go:57-73 | The entry ends the log, after a rotation when a non-empty log would outgrow its limit |
| LogRotate.WriteKeepsSuffix | cmd/anubis/logrotate.go:57-92 | A write keeps: what is on disk is a suffix of what was written, all of it while backups are free |
| LogRotate.FilesHoldRecentEntries | cmd/anubis/logrotate.go:57-92 | After any writes the files hold a suffix in whole entries, backups are contiguous and within their number, each file is within its size or holds one non-empty entry, and was closed only for an entry that did not fit |
| LogRotate.BytesAreSuffix | cmd/anubis/logrotate.go:57-92 | The bytes of the backups oldest to newest, then of the log, are a suffix of all bytes written |

## Left out

- Sending: channel dispatchers, SMTP, webhooks, retry timing and per-channel rate windows; one send is skipped, delivered or failed.
- Raft, the batcher, ownership planning and the storage engine: used only through what callers see of them (a shared log applied in order, a write returns once this node applied it, listings of one workspace).
- HTTP handlers, middleware, OpenAPI, MCP, metrics, status pages, the web interface, the CLI, configuration and backup front ends: plumbing.
- Anomaly detection and percentile conditions: floating-point rounding would decide them. For failure rates it does not: rounding is an arbitrary function.
- Target redaction and the lists of secret field names: regular expressions and URL parsing; they are arbitrary predicates here, so the round trips hold for any of them.
- Journey and channel admission: the same form as soul admission.
- QuotaAdmission.QuotaGuard.AdmitSoul: failing lookups and counts are not modelled, and the empty workspace is taken as already replaced by the default one.
- AlertSync.DrainedMemory: a storage listing inside a run does not fail (a failed listing leaves the table, as Install states); every record is stored under its own ID; incidents and dedup records of a Resync are not part of the tables; channels and rules from the configuration file, and the memory update of a node that proposes changes itself, are not modelled.
- Dedup.CooldownNeverViolated: of remote releases only those whose key has no unreleased alert inside the cooldown are covered; UnloadSafeIffWindowPast says what any other one does.
- Dedup.SuppressionIsJustified: excludes replicated records, which suppress on behalf of another node's alerts.
- Dedup.SuppressedAlarmWasRaised: for rule and soul IDs without a colon; SuppressionIsJustified states it of keys for all IDs.
- Seed.OtherSoulsUntouched: for soul IDs without a colon; with one, two souls can share a counter.
- Dedup.Manager.Dispatch: the alert worker, silences and channel selection are left out; the list of send results is given.
- Dedup.Manager.EnqueueAlert: one clock reading per claim; sharing the record with other nodes is left out.
- Seed.Evaluation.ObserveJudgment: flapping and maintenance are not modelled, and the status clock is noted at the judgment's time where the program reads the current time.
- Incidents.EscalationIsPaced: channel eligibility decides only whether the checker skips an incident, which it may do at any time here; each step reads the clock once.
- Incidents.Manager.FinishUpdate: hooks, persistence after escalation and the history of resolved incidents are left out.
- FailureRate.PrunedConditionVerdict: the rule set is fixed.
- FailureRate.HistorySamples: a failing listing, after which no condition fires, and stored judgments of other souls are left out.
- RateLimit.Limiter.TakeRateLimitQuotas: the mutex, the request classes and the response headers are left out.
- DepthReader.PassesIffShallow: the bytes between structural characters are any bytes that are not quotes or brackets, which covers every text of RFC 8259 and some that are not JSON.
- Routing.Router.Dispatch: method-not-allowed answers, CORS and the handler call are left out.
- ChannelRedaction.MergeSecretAnyMap: configs are decoded JSON, so Go-typed string maps and string slices do not occur.
- Export.StreamJudgments: a failing listing or a cancelled context ends the export with an error and is not modelled; stores with their own streaming method do not take this loop.
- LogRotate.RotatingFile.Write: I/O errors and reopening an existing log are left out.
