# Verified cores of the group assistant

This project models the parts of the group assistant where a mistake is hard to see and proves what
they are meant to guarantee. One module stands for one component:

| module | component |
|---|---|
| `EventHub` | the administration event hub: bounded and time-pruned log, subscriber queues, replay, eviction of slow consumers |
| `Scheduler` | the scheduled-job runtime over a store that may fail at any call, with process restarts |
| `JoinRequests` | the decision protocol for group join requests, with its store transactions and its service |
| `Regex`, `Search` | the selectivity bound on search patterns, and knowledge search within its rune budget |
| `Knowledge` | candidate ids, the parser's conflict report and the exact-lookup index |
| `Redactor` | redaction of audit payloads |
| `Notices` | publishing a notice to many groups with a pool of workers |
| `CommandDefinition`, `CommandTokenizer`, `CommandRegistry`, `CommandExecutor` | custom commands: validation, tokenizing, the registry of active commands, execution |
| `Limiter` | the login limiter |
| `PasswordHash` | printing and parsing of password hashes |
| `Text`, `Wrappers` | characters, decimal numbers, trimming and containment as Go's packages see them; `Option` and `Result` |

Objects that the program updates under a mutex are classes whose methods are the critical sections;
what they promise is stated against functions on values, and the lemmas are about those functions.
Where several goroutines or processes interleave (join requests, notices, the scheduler with its
store), a state and its steps are a datatype and a function, a run is any sequence of steps, and the
methods are proved for any steps of the others in between.

What the environment does is a parameter or an arbitrary choice: clocks, identifier sources, database
and gateway answers, which map entry comes first, and when a caller goes away. Assumptions are
preconditions: the hub's clock does not go back and its identifier source does not repeat, attempts at
one scheduled occurrence start at increasing times, candidate digests do not collide on the texts at
hand, the regular-expression engine finds exactly the matches of a parsed pattern, a key-derivation
function returns keys of the requested length.

Some guarantees do not hold of the code without a condition. For each there is an exact condition and
an example:

- A hub whose clock goes back can prune holes into its log (`EventHub.PruneLeavesSuffixIff`,
  `EventHub.PruneHoleExample`).
- A scheduled message can be sent again after a delivery if start times of its attempts do not increase
  (`Scheduler.ResendsAfterDeliveryIff`, `Scheduler.BackwardClockExample`).
- Candidate ids collide when a keyword with NUL reads like a repeated row
  (`Knowledge.IDTextsDistinctIff`, `Knowledge.NulKeywordExample`).
- A registry replaced with a repeated id has maps that are not inverse
  (`CommandRegistry.ReplaceIsConsistentIff`, `CommandRegistry.RepeatedIDExample`); the store's key on ids
  excludes it.
- A mute whose optional duration is left out lasts no time
  (`CommandExecutor.MuteIsBoundedIff`, `CommandExecutor.MuteForNoTimeExample`), and a mute or mention
  whose optional member is left out names nobody (`CommandExecutor.MemberIsNamedIff`,
  `CommandExecutor.MentionNobodyExample`).
- Tokenizing turns U+3000 into a space even inside quotes (`CommandTokenizer.TokensComeBackIff`).

## Model

| member | source | states |
|---|---|---|
| `EventHub.Hub.constructor` | internal/management/events/hub.go:144-156 | A new hub has an empty log, no subscriptions and the configured bounds. |
| `EventHub.Hub.Publish` | internal/management/events/hub.go:158-204 | Exactly the invalid drafts and identifier failures are refused, without any effect; otherwise the event is appended to everything published, the retained log is the newest entries within retention and capacity, every open subscription is offered the event, what was received stays as it was, and the clock and the identifiers move on by this one. `Valid` is kept: the retained log stays a suffix of the published one and every channel carries exactly what it should. |
| `EventHub.Hub.Subscribe` | internal/management/events/hub.go:206-248 | Which refusal occurs exactly when, without effect on subscriptions and what they received; a successful call adds one subscription whose queue is its replay, starting at the end of the log, right after the last seen event, or with one reset event, leaves all others alone, and keeps `Valid`. |
| `EventHub.Hub.ReplayLocked` | internal/management/events/hub.go:301-330 | Live without a cursor, reset exactly when the cursor is not retained, otherwise the filtered log after the cursor; invalid cursors are refused. |
| `EventHub.Hub.FindCursor` | internal/management/events/hub.go:313-319 | Finds a retained event with the identifier exactly if there is one. |
| `EventHub.Hub.CollectReplay` | internal/management/events/hub.go:322-328 | The replay is the topic-filtered stretch of the retained log after the cursor. |
| `EventHub.Hub.SubscriptionTopics` | internal/management/events/hub.go:368-393 | Which topic lists are accepted, what set results, and which of the two errors a refusal gives. |
| `EventHub.Hub.PruneLocked` | internal/management/events/hub.go:346-358 | The in-place compaction leaves exactly the entries not older than the retention. |
| `EventHub.Hub.ShiftLocked` | internal/management/events/hub.go:187-192 | The in-place copy moves every slot down by one. |
| `EventHub.Hub.AppendLocked` | internal/management/events/hub.go:187-192 | Appending trims to the newest `capacity` events. |
| `EventHub.Hub.RetainLocked` | internal/management/events/hub.go:186-192 | Prune, append and trim keep the retained log a suffix of the published log of at most `capacity` entries. |
| `EventHub.Hub.OfferLocked` | internal/management/events/hub.go:193-202 | In whatever order the subscribers are visited, each gets the event, is left alone, or is closed because its channel is full. |
| `EventHub.Hub.CloseSubscriptionLocked` | internal/management/events/hub.go:360-366 | Closing unregisters one subscription and leaves its queue and all others alone. |
| `EventHub.Hub.CloseSession` | internal/management/events/hub.go:250-261 | Closes exactly the session's subscriptions; none for an empty session. |
| `EventHub.Hub.CloseUser` | internal/management/events/hub.go:263-274 | Closes exactly the user's subscriptions; none for an empty user. |
| `EventHub.Hub.Close` | internal/management/events/hub.go:290-299 | Closes one subscription, keeping what is queued. |
| `EventHub.Hub.Receive` | internal/management/events/hub.go:276-281 | A receiver gets the head of its queue; received plus queued stays what it was. |
| `EventHub.OfferAllKeepsDelivered` | internal/management/events/hub.go:193-202 | Publishing keeps, for every subscription at once, that received plus queued is its start followed by the filtered log from its start on, to the end for open ones, within its channel's capacity. |
| `EventHub.RetainKeepsSuffix` | internal/management/events/hub.go:187-192 | Pruning, appending and trimming a suffix of an ordered log gives a suffix of the longer log. |
| `EventHub.PruneLeavesSuffixIff` | internal/management/events/hub.go:346-358 | Pruning leaves no hole exactly when no entry kept is older in the log than one dropped. |
| `EventHub.PruneHoleExample` | internal/management/events/hub.go:346-358 | With a clock that goes back, pruning leaves a hole. |
| `EventHub.Client.Perform` | internal/management/events/hub.go:158-330 | Any call of anybody: it keeps that the client received exactly the filtered log up to where its connection begins and then what it took from its channel; only a reconnection that asks for an event no longer retained resets it. |
| `EventHub.FollowedStretch` | internal/management/events/hub.go:301-330 | What such a client received is the filtered log up to its last event, and with what is queued for it the filtered log to the end of its connection's stretch. |
| `EventHub.ContinuesAfterLast` | internal/management/events/hub.go:301-330 | Reconnecting with the last identifier begins right after the last event received. |
| `EventHub.Client.ConnectAgain` | internal/management/events/hub.go:206-248 | Connecting or reconnecting keeps the history; unless the hub refuses, the client has a new connection. |
| `EventHub.Client.ReconnectHasNoGap` | internal/management/events/hub.go:301-330 | A client that was not reset has received exactly the filtered published log from its first event to its last; while it is connected, received plus queued is that log to its end. |
| `EventHub.Client.Run` | internal/management/events/hub.go:158-330 | Over any sequence of publications, subscriptions, receptions, closings and reconnections by anybody, a client that was not reset has received exactly the filtered published log from its first event to its last. |
| `EventHub.FilterConcat` | internal/management/events/hub.go:322-328 | Filtering distributes over concatenation, so stretches of the log join without gap or duplicate. |
| `EventHub.TopicForEventIff` | internal/management/events/hub.go:395-418 | An event is filed under a topic exactly if its kind is one the topic stands for; every known kind has one. |
| `EventHub.FilterIsByKind` | internal/management/events/hub.go:322-328 | A subscriber is owed exactly the events whose kinds its topics stand for. |
| `EventHub.ResourceIsValid` | internal/management/events/hub.go:455-484 | Which resources a draft may carry. |
| `Scheduler.LatestIsGreatest` | internal/platform/storage/manager_operations.go:1804-1863 | The latest run of an occurrence is the greatest by start time and identifier. |
| `Scheduler.BeginsIffAllFailed` | internal/platform/storage/manager_operations.go:1804-1863 | With increasing start times an occurrence gets a new run exactly if all its runs so far have failed; otherwise its newest run is returned, as unknown if it was unfinished, and no other row changes. |
| `Scheduler.FirstCompletionCounts` | internal/platform/storage/manager_operations.go:1865-1895 | The first completion of a run counts; repeating it is confirmed, any other is refused, and neither changes anything. |
| `Scheduler.BeginKeepsSafe` | internal/platform/storage/manager_operations.go:1804-1863 | If each attempt at an occurrence starts later than the earlier ones at it, beginning a run keeps that every run of an occurrence but the newest has failed. |
| `Scheduler.ResendsAfterDeliveryIff` | internal/platform/storage/manager_operations.go:1804-1863 | An occurrence whose newest run has not failed is begun again exactly when an earlier run of it is ordered after the newest: it carries a later start time, or the same one and a greater identifier. |
| `Scheduler.BackwardClockExample` | internal/platform/storage/manager_operations.go:1804-1863 | A failed and a delivered attempt with start times the wrong way round lead to a third message. |
| `Scheduler.CompleteKeepsSafe` | internal/platform/storage/manager_operations.go:1865-1895 | A completion that tells the truth about its message keeps the run table safe. |
| `Scheduler.RecoverKeepsSafe` | internal/platform/storage/manager_operations.go:1897-1903 | Recovering interrupted runs keeps the run table safe. |
| `Scheduler.SafeSendsAtMostOnce` | internal/automation/scheduler/runtime.go:123-178 | In a safe history every message for a job and day but the last definitely failed, so nothing follows a success or an unknown outcome. |
| `Scheduler.CompleteKeepsSound` | internal/automation/scheduler/runtime.go:180-202 | Storing a pending completion, acknowledged or not, keeps the invariant; an acknowledged one is announced, and no run twice. |
| `Scheduler.RememberKeepsSound` | internal/automation/scheduler/runtime.go:240-244 | Remembering a run's completion keeps pending business truthful. |
| `Scheduler.Store.BeginScheduledJobRun` | internal/platform/storage/manager_operations.go:1804-1863 | A call that is lost, or names a missing or disabled job, changes nothing; otherwise the run table changes as specified even if the answer is lost. |
| `Scheduler.Store.CompleteScheduledJobRun` | internal/platform/storage/manager_operations.go:1865-1895 | Completing takes effect unless lost, and is confirmed exactly if the answer arrives and the run ended so. |
| `Scheduler.Store.MarkScheduledJobRan` | internal/platform/storage/store.go:128-134 | Marking records the day and disables one-off jobs. |
| `Scheduler.Runtime.FinishPending` | internal/automation/scheduler/runtime.go:180-202 | Keeps the invariant under every store fault, takes back no announcement and touches no other job's business; if both calls succeed the completion is stored, announced once, and the job marked. |
| `Scheduler.Runtime.TickJob` | internal/automation/scheduler/runtime.go:130-176 | Keeps the invariant under every fault and takes back no announcement. Nothing is sent for a job that is not due in its fields or has pending business. Without faults a due job all of whose runs of the day have failed gets one message, its run is recorded with the outcome and announced, and the job is marked unless the send failed; one with another run is only marked. |
| `Scheduler.Runtime.AttemptJob` | internal/automation/scheduler/runtime.go:130-176 | One listed job after others may have edited the jobs: without faults a message goes out exactly if the job is due and its runs of the day have all failed, and only its own runs and record change. |
| `Scheduler.Runtime.SendRun` | internal/automation/scheduler/runtime.go:145-176 | The send for a run just begun: at most one message, its outcome stored and announced, the job marked unless it failed; without a gateway the run fails without a message. |
| `Scheduler.Runtime.RunOnce` | internal/automation/scheduler/runtime.go:123-178 | Over any listing, faults at every call and concurrent edits of jobs: the invariant and at-most-once sending are kept and messages are only for the tick's day. A tick without faults and edits sends for exactly the listed jobs that are due and whose runs of the day have all failed, in their order, and leaves nothing pending. |
| `Scheduler.Runtime.Run` | internal/automation/scheduler/runtime.go:109-121 | Over the life of a process, with any ticks and faults, no run is announced twice and only completed runs are; over all processes nothing is sent after a success or an unknown outcome. |
| `Scheduler.Runtime.Restart` | internal/automation/scheduler/runtime.go:89-107 | A new process starts with no pending business and keeps the invariant. |
| `Scheduler.Runtime.RecoverInterruptedRuns` | internal/platform/storage/manager_operations.go:1897-1903 | Startup recovery turns unfinished runs unknown and keeps the invariant. |
| `Scheduler.DueUntilMarked` | internal/automation/scheduler/scheduler.go:26-54 | Once due on a day a job stays due for the rest of it until it is marked, and never after; a one-off job only on its date. |
| `Scheduler.IsDueIff` | internal/automation/scheduler/scheduler.go:26-80 | A job is due exactly if it is enabled, its time of day is readable and reached, it was not run on this day, and it runs daily or once on this day. |
| `Scheduler.ClassifyScheduledSend` | internal/automation/scheduler/runtime.go:208-227 | Success exactly without an error, failed exactly for the errors that rule out a delivery, each with its reported code; everything else, interruptions included, is unknown. |
| `JoinRequests.StepKeepsInv` | internal/groups/joinrequests/service.go:443-591 | Every step of every goroutine or process (arrival, observation, reservation, gateway call, skip, completion, recovery, crash) keeps the protocol's invariant. |
| `JoinRequests.StepSettles` | internal/groups/joinrequests/service.go:443-591 | No step forgets anything, reopens a request that left pending and processing, changes an approved or rejected one, or takes back a revision. |
| `JoinRequests.EveryRunIsSafe` | internal/groups/joinrequests/service.go:357-591 | Over every run: a processing request has exactly one started attempt, the gateway is asked at most once per attempt and for at most one automatic attempt per request, approved and rejected requests were confirmed so by the gateway, a pending request has no attempt that took effect or can still be sent, and what is settled stays settled. |
| `JoinRequests.InvGivesOneShot` | internal/groups/joinrequests/worker.go:38-119 | An automatic attempt is its request's last one, and the request never waits for another. |
| `JoinRequests.InvGivesCallsBounded` | internal/groups/joinrequests/service.go:443-487 | At most one gateway call per attempt and for one automatic attempt per request. |
| `JoinRequests.BeginKeepsInv` | internal/platform/storage/manager_operations.go:854-981 | Reserving attempts, manual or automatic, keeps the invariant. |
| `JoinRequests.BeginResult` | internal/platform/storage/manager_operations.go:854-981 | An accepted mutation found all its requests pending at their versions and adds one started attempt for each, in order; a refused one changes nothing. |
| `JoinRequests.BeginRequests` | internal/platform/storage/manager_operations.go:854-981 | The requests named are processing by their new attempts, one revision on and until the lease ends; no other changes. |
| `JoinRequests.BeginAcceptedIff` | internal/platform/storage/manager_operations.go:854-981 | A new mutation is accepted exactly when each request exists, is pending, has the version and the group given, none is named twice, the key is new to them, and the policy allows it. |
| `JoinRequests.BeginRefusedIff` | internal/platform/storage/manager_operations.go:854-981 | Which of the three refusals occurs when. |
| `JoinRequests.ReplayIff` | internal/platform/storage/manager_operations.go:1004-1051 | Where a key is used once on each request, a mutation is taken for a repetition exactly if each request, none named twice, was begun by this very mutation. |
| `JoinRequests.RunKeepsKeysOnce` | internal/platform/storage/manager_operations.go:854-981 | Over every run a key is used at most once on each request. |
| `JoinRequests.CompleteDecisionKeepsInv` | internal/platform/storage/manager_operations.go:1113-1169 | Finalizing an attempt with a warranted completion keeps the invariant, whoever does it. |
| `JoinRequests.CompletionIsFinal` | internal/platform/storage/manager_operations.go:1113-1169 | A completion that succeeds is what is stored, under a new revision and without a lease; one that does not changes nothing. |
| `JoinRequests.FirstCompletionCounts` | internal/platform/storage/manager_operations.go:1113-1169 | The first completion of an attempt counts; repeating it succeeds, any other is refused, and neither changes anything. |
| `JoinRequests.StartedIsCompletable` | internal/platform/storage/manager_operations.go:1113-1169 | A started attempt can always be completed. |
| `JoinRequests.DecideKeepsInv` | internal/groups/joinrequests/service.go:443-463 | Calling the gateway once for a reservation and recording the completion it warrants keeps the invariant. |
| `JoinRequests.ObserveKeepsInv` | internal/groups/joinrequests/observation.go:6-16 | Observing that a request was handled elsewhere keeps the invariant. |
| `JoinRequests.ObservationIs` | internal/groups/joinrequests/observation.go:6-16 | What an observation changes: a new request is filed as open or handled, a known open or unknown one becomes handled, and nothing else. |
| `JoinRequests.RecoveryFreesExpired` | internal/platform/storage/manager_operations.go:1248-1294 | Recovery frees exactly the requests whose lease has run out: request and attempt become unknown, nothing else changes. |
| `JoinRequests.MergeObservedDecisionStatus` | internal/groups/joinrequests/observation.go:6-16 | An observed request is no longer pending or unknown; decided ones and those being processed stay as they are. |
| `JoinRequests.RepeatedBeginIsHarmless` | internal/platform/storage/manager_operations.go:1004-1051 | Repeating an accepted mutation at any later time changes nothing. |
| `JoinRequests.SkippedIsNeverSent` | internal/groups/joinrequests/service.go:530-553 | An attempt skipped instead of sent is never sent later. |
| `JoinRequests.Service.StoreCompletion` | internal/groups/joinrequests/service.go:464-470 | Either the completion is known to be stored for good, or it stays behind for the retry worker. |
| `JoinRequests.Service.Execute` | internal/groups/joinrequests/service.go:443-487 | The gateway is asked once. If the result is stored, a confirmed answer makes the attempt confirmed and the request approved or rejected as asked; a failed or unavailable one makes a manual attempt failed and its request pending again; every other answer leaves both unknown. Otherwise that completion is still to be stored. Nothing else this goroutine holds is touched, whatever others do meanwhile. |
| `JoinRequests.Service.CompleteWithoutExternal` | internal/groups/joinrequests/service.go:530-553 | The item fails, nothing is or will be sent, and the report matches the store. |
| `JoinRequests.Service.Decide` | internal/groups/joinrequests/service.go:357-393 | A refusal or a replay has no effect and a replay answers from the store; a new decision is executed, with the statuses and the error that the gateway's answer calls for. |
| `JoinRequests.Service.DecideReserved` | internal/groups/joinrequests/service.go:427-438 | One item of a bulk decision is sent, or skipped for a caller that has gone; a sent one is confirmed exactly if the gateway confirmed it and storing succeeded. |
| `JoinRequests.Service.ReplayItem` | internal/groups/joinrequests/service.go:742-748 | A replayed item reports its stored attempt; a running one is refused. |
| `JoinRequests.Service.BulkDecide` | internal/groups/joinrequests/service.go:395-441 | One truthful item per request, in order, with counts that add up, for any interleaving with other goroutines; refusals and replays change nothing. |
| `JoinRequests.AppendTallies` | internal/groups/joinrequests/service.go:692-702 | Appending an item keeps the three counts equal to the items with each outcome. |
| `JoinRequests.ExecutedItemReported` | internal/groups/joinrequests/service.go:750-775 | The bulk item built from an executed attempt says about it what is stored. |
| `JoinRequests.ReplayedItemReports` | internal/groups/joinrequests/service.go:726-748 | The bulk item built from a replayed attempt says about it what is stored. |
| `JoinRequests.Service.ProcessAutoApprovals` | internal/groups/joinrequests/worker.go:38-119 | One pass sends distinct attempts, each the only automatic one of its request for good. |
| `JoinRequests.Service.DecideAutomatically` | internal/groups/joinrequests/worker.go:49-116 | One candidate leads to at most one new automatic attempt that is sent. |
| `Regex.ClassRuneCount` | internal/knowledge/search.go:212-221 | The early-exit count is at most 40 exactly when the class covers at most 40 code points, and exact then. |
| `Regex.CountIsCardinality` | internal/knowledge/search.go:212-221 | For the canonical range tables the parser builds, the running count is the number of code points covered, up to the limit. |
| `Regex.WeakestIsLeast` | internal/knowledge/search.go:179-192 | The score of an alternation is no more than that of any branch. |
| `Regex.SpecificityIsSound` | internal/knowledge/search.go:161-209 | For every syntax tree and every match of it in any text, at least `regexSpecificity` runes are pinned by literals or narrow classes. |
| `Regex.SpecificityIsAttained` | internal/knowledge/search.go:161-209 | For a pattern whose weakest word it can match, text and line anchors at the ends included, that match pins no more than the score. |
| `Regex.SpecificityIsExact` | internal/knowledge/search.go:161-209 | For such patterns the score is the minimum of pinned runes over all matches in any text. |
| `Regex.AcceptedMatchesAreLong` | internal/knowledge/search.go:144-157 | An accepted pattern never matches through fewer than two pinned runes. |
| `Regex.AcceptedIffSelective` | internal/knowledge/search.go:144-157 | A pattern that matches its weakest word, which leaves aside parts that never match, word boundaries and anchors inside the word, is accepted exactly when all its matches pin at least two runes. |
| `Regex.AnchoredPatternExample` | internal/knowledge/search.go:144-157 | An anchored pattern of two literals is covered and pins exactly two. |
| `Search.Search` | internal/knowledge/search.go:34-83 | Which error occurs exactly when; otherwise the page, for the effective limit, of the enabled AI entries that contain all words of the query, or one of them, or in which the engine finds the pattern, by the mode asked for. |
| `Search.ResultsAreSelective` | internal/knowledge/search.go:117-125 | Whatever a search by pattern returns comes from an enabled entry that the pattern matches through at least two pinned runes. |
| `Search.SearchEntries` | internal/knowledge/search.go:54-81 | Results are a prefix of the matching enabled AI entries in order, whole but for a last answer cut where the budget of 12000 runes, metadata included, ends; the page ends only at the limit, the last hit or the budget. |
| `Search.PageIsUnique` | internal/knowledge/search.go:34-83 | The specification of a page determines it. |
| `Search.MatchContent` | internal/knowledge/search.go:102-116 | The matcher loop: all terms, one term, or the pattern. |
| `Search.HitsAnswer` | internal/knowledge/search.go:85-121 | What the matcher made of a query selects is what the query asks for: all words, one word, or the pattern. |
| `Search.EffectiveLimit` | internal/knowledge/search.go:45-51 | The limit is between 1 and 10: the one asked for, cut to 10, or 5. |
| `Search.ShownFits` | internal/knowledge/search.go:223-232 | A truncated answer is a prefix that fits the room, and fills it if it was cut. |
| `Knowledge.AnswersKeyIff` | internal/knowledge/index.go:48-61 | A key selects an entry exactly if it is enabled for exact replies and its keyword or an alias normalizes to the key. |
| `Knowledge.ScanIsExact` | internal/knowledge/index.go:50-61 | The linear scan lists exactly the entries that answer a key, each once, in row order. |
| `Knowledge.AddLookupCandidate` | internal/knowledge/index.go:79-93 | A candidate is added unless its key is empty or it is there already. |
| `Knowledge.CollectCandidates` | internal/knowledge/index.go:48-61 | The candidate lists equal the linear scan for every key. |
| `Knowledge.LookupAnswersConflict` | internal/knowledge/index.go:95-106 | A conflict is reported exactly when normalized answers differ. |
| `Knowledge.NewIndex` | internal/knowledge/index.go:25-77 | For every key the index holds the first candidate, a conflict listing all candidates, or nothing, as the scan says. |
| `Knowledge.IndexRefinesScan` | internal/knowledge/index.go:108-125 | For every message: no candidate means both lookups miss; equal answers give the first candidate; otherwise only the conflict is found, listing all candidates in row order. |
| `Knowledge.MergeCandidate` | internal/knowledge/parser.go:210-216 | The loop merges a candidate with the same id, and otherwise appends. |
| `Knowledge.AddExactCandidate` | internal/knowledge/parser.go:205-218 | The parser's candidate lists change by one merge; display forms keep normalizing to their key. |
| `Knowledge.GroupExactCandidates` | internal/knowledge/parser.go:141-152 | For distinct ids the parser's lists are the linear scan with the alias flags. |
| `Knowledge.ExactConflictOf` | internal/knowledge/parser.go:158-181 | A key is reported exactly when its answers differ and its rows do not share one source key, and the report lists its rows and its type. |
| `Knowledge.ExactCandidateAnswersIdentical` | internal/knowledge/parser.go:185-193 | Whether all candidates give one normalized answer. |
| `Knowledge.ExactCandidatesShareSource` | internal/knowledge/parser.go:195-203 | Whether all candidates have one source key. |
| `Knowledge.ResolveExactConflicts` | internal/knowledge/parser.go:141-183 | One report for each reportable key, in ascending order of the keys. |
| `Knowledge.GroupBySource` | internal/knowledge/parser.go:104-111 | Rows by source key, in order of first rows. |
| `Knowledge.SourceConflictOf` | internal/knowledge/parser.go:115-131 | A source key is reported exactly when its answers differ, with all its rows. |
| `Knowledge.ResolveSourceConflicts` | internal/knowledge/parser.go:103-133 | Every source key with differing answers is reported with all its rows. |
| `Knowledge.ReportedIsRuntimeConflict` | internal/knowledge/parser.go:141-183 | Every reported keyword or alias conflict is a runtime conflict over exactly the rows it lists. |
| `Knowledge.RuntimeConflictIsReported` | internal/knowledge/index.go:62-75 | Every runtime conflict is reported with exactly its rows, or lies within a reported source key. |
| `Knowledge.CountBases` | internal/knowledge/parser.go:89-92 | The counts tell which rows share source key and keyword. |
| `Knowledge.AssignCandidateIDs` | internal/knowledge/parser.go:88-101 | In place, every row's id becomes the digest of its text, marked with the row number exactly if the text is repeated. |
| `Knowledge.IDTextsDistinctIff` | internal/knowledge/parser.go:88-101 | For distinct row numbers the digested texts are distinct exactly when no unrepeated row reads like a repeated one with its mark. |
| `Knowledge.KeywordsWithoutNulGiveDistinctIDs` | internal/knowledge/parser.go:88-101 | Without NUL in keywords and source keys the ids are distinct. |
| `Knowledge.NulKeywordExample` | internal/knowledge/parser.go:88-101 | Three rows, two alike and one whose keyword holds NUL, of which the first and the last share their text. |
| `Redactor.RedactValueAtDepth` | internal/management/audit/redactor.go:112-149 | The recursion computes the specified redaction and terminates by the remaining depth and structure. |
| `Redactor.RedactObjectAtDepth` | internal/management/audit/redactor.go:57-106 | The loop over an object, in any entry order, with skipping, replacement and dropping by size. |
| `Redactor.RedactSliceAtDepth` | internal/management/audit/redactor.go:151-182 | The loop over an array, which ends where not even a placeholder fits. |
| `Redactor.RedactionIsIdempotent` | internal/management/audit/redactor.go:57-182 | A second pass over a result, with the entries at every level in any other order, changes nothing. |
| `Redactor.RedactedIsClean` | internal/management/audit/redactor.go:57-182 | Every result is clean: sizes, depth, key lengths, distinct keys, harmless text, placeholders under sensitive keys. |
| `Redactor.CleanIsKept` | internal/management/audit/redactor.go:57-182 | Redaction changes nothing that is clean. |
| `Redactor.ReorderingKeepsClean` | internal/management/audit/redactor.go:72-104 | Being clean does not depend on the order of entries. |
| `Redactor.ReorderingKeepsBytes` | internal/management/audit/redactor.go:184-199 | The JSON length does not depend on the order of entries. |
| `Redactor.EntriesAreClean` | internal/management/audit/redactor.go:57-106 | The running `encodedBytes` of an object is its JSON length so far and within 65536. |
| `Redactor.ItemsAreClean` | internal/management/audit/redactor.go:151-182 | The same for arrays. |
| `Redactor.RedactedIsBounded` | internal/management/audit/redactor.go:57-182 | A redacted object or array has at most 65536 bytes, 512 items and 32 levels, and no sensitive or overlong text. |
| `Redactor.CleanNests` | internal/management/audit/redactor.go:112-115 | Clean values nest at most as deep as the depth limit leaves. |
| `Redactor.ForcedRedaction` | internal/management/audit/redactor.go:122-124 | Under force only placeholders and nil objects are left at the leaves. |
| `Redactor.EntriesComeFrom` | internal/management/audit/redactor.go:72-104 | Every entry of a result comes from an input entry with its safe key, and is a placeholder whenever that entry's own key was sensitive. |
| `Redactor.UnchangedIsIdentity` | internal/management/audit/redactor.go:57-182 | When no change is reported for a JSON tree, the result is the input. |
| `Redactor.UnchangedIff` | internal/management/audit/redactor.go:57-182 | Without force no change is reported exactly for clean values without sensitive keys above the depth limit. |
| `Redactor.ForceIsChange` | internal/management/audit/redactor.go:57-182 | Under force everything counts as changed but a nil object. |
| `Redactor.LeavesSurvive` | internal/management/audit/redactor.go:112-149 | Numbers, booleans and nulls stay; a harmless text keeps its first 2000 runes, a sensitive one becomes the placeholder; any other Go value becomes the redaction of its JSON tree. |
| `Redactor.EntryFate` | internal/management/audit/redactor.go:72-104 | Each entry in turn: left out if its safe key is taken, whole if the object's JSON text still fits, a placeholder if only that fits. |
| `Redactor.ObjectSurvives` | internal/management/audit/redactor.go:57-106 | As long as safe keys are distinct and the JSON text fits, every entry is there, redacted and in its place. |
| `Redactor.ItemFate` | internal/management/audit/redactor.go:151-182 | The same for an item of an array, which ends where nothing fits. |
| `Redactor.ArraySurvives` | internal/management/audit/redactor.go:151-182 | As long as the JSON text fits, every item is there, redacted and in its place. |
| `Redactor.JSONBytesIsLength` | internal/management/audit/redactor.go:184-199 | The byte count of a value is the length in UTF-8 of its escaped JSON text. |
| `Redactor.SensitiveKeyIff` | internal/management/audit/redactor.go:208-219 | A key is sensitive exactly if a stretch of it spells a fragment in any letter case. |
| `Redactor.SensitiveValueIff` | internal/management/audit/redactor.go:221-229 | A text is sensitive exactly if a stretch of it, not reaching into its trailing blanks, spells a marker in any letter case. |
| `Redactor.TruncationStaysHarmless` | internal/management/audit/redactor.go:208-257 | Cutting a text short never makes it or a key sensitive. |
| `Redactor.PlaceholderIsHarmless` | internal/management/audit/redactor.go:221-229 | The placeholder itself is not sensitive. |
| `Notices.FailureItem` | internal/groups/notices.go:241-272 | An outcome is unknown exactly when a send was tried and the error is indefinite; which code is given for which error. |
| `Notices.StepKeepsInv` | internal/groups/notices.go:178-239 | Every step of feeder, workers and cancellation keeps: each fed index is held by one worker or has the item that the gateway's answers call for; a target is sent to once, and exactly if the bot is owner or admin there. |
| `Notices.StepMakesProgress` | internal/groups/notices.go:178-239 | Every step makes progress, so every schedule ends. |
| `Notices.SomeStepIsPossible` | internal/groups/notices.go:178-239 | No schedule gets stuck before the end. |
| `Notices.CollectItems` | internal/groups/notices.go:228-234 | Targets that were never fed get a failure item with the reason of the stop; all others keep theirs. |
| `Notices.PublishNoticeItems` | internal/groups/notices.go:178-239 | For every schedule and gateway: one item per target in order; unless the feeder was stopped all targets are processed; the role is asked where the group id is a number, the notice goes out once exactly where the bot is owner or admin, and the item says how it ended. |
| `Notices.SettledItems` | internal/groups/notices.go:178-239 | What items tell: sent exactly if owner or admin, succeeded exactly if the gateway took the notice, denied exactly if the role was another. |
| `Notices.ValidGroupIDIff` | internal/groups/service.go:563-573 | A valid group id is a positive number, which can be addressed exactly if it fits 64 bits. |
| `Notices.CountsAddUp` | internal/groups/notices.go:274-287 | The four counts add up to the number of items. |
| `Notices.SummarizeNoticeResult` | internal/groups/notices.go:274-297 | Counts are those of the items and the status says what they show. |
| `Notices.SettledResultIsValid` | internal/groups/notices.go:317-346 | The summarized result always passes the validity check. |
| `Notices.PublishNotices` | internal/groups/notices.go:94-158 | The published result is valid, settled by the gateway's answers and truthfully summarized. |
| `Notices.ValidNoticeInput` | internal/groups/notices.go:299-315 | The input check with its set of seen groups accepts exactly nonempty, bounded, distinct and valid lists. |
| `CommandTokenizer.Tokenize` | internal/automation/customcommand/parser.go:97-147 | The loop over quote and escape flags computes the specified scanner. |
| `CommandTokenizer.TokensOfSpelling` | internal/automation/customcommand/parser.go:97-147 | A message that spells words by bare, quoted and escaped stretches, with any spaces between them, is split into exactly these words. |
| `CommandTokenizer.UnterminatedIsRefused` | internal/automation/customcommand/parser.go:97-147 | A message that ends inside a quote, or after a backslash in one, is refused. |
| `CommandTokenizer.TokensOfLine` | internal/automation/customcommand/parser.go:97-147 | Tokenizing a list quoted and escaped with either kind of quote gives the list back up to wide spaces, empty tokens included. |
| `CommandTokenizer.TokensComeBackIff` | internal/automation/customcommand/parser.go:97-147 | It gives the list back exactly when no token holds U+3000. |
| `CommandTokenizer.RoutedNameIsFirstToken` | internal/automation/customcommand/registry.go:129-142 | A plain name found as the first field of a message is its first token. |
| `CommandDefinition.ValidateDefinition` | internal/automation/customcommand/definition.go:29-84 | No issues exactly for valid definitions. |
| `CommandDefinition.ValidateScope` | internal/automation/customcommand/definition.go:86-105 | No issues exactly for valid scopes. |
| `CommandDefinition.ValidateParameter` | internal/automation/customcommand/definition.go:107-158 | No issues exactly for valid parameters. |
| `CommandDefinition.ValidateOptions` | internal/automation/customcommand/definition.go:144-154 | No issues exactly for distinct valid options. |
| `CommandDefinition.ValidateParameters` | internal/automation/customcommand/definition.go:49-68 | No issues exactly for at most ten valid, distinctly named parameters, required ones first; the map of types is filled. |
| `CommandDefinition.ValidateAction` | internal/automation/customcommand/definition.go:160-219 | No issues exactly for valid actions, which for everyone are unprivileged. |
| `CommandDefinition.ValidateTargets` | internal/automation/customcommand/definition.go:199-210 | Exactly one to ten distinct fixed group ids are accepted. |
| `CommandDefinition.ValidateActions` | internal/automation/customcommand/definition.go:69-82 | No issues exactly for valid actions within the total limits. |
| `CommandDefinition.ValidateTemplate` | internal/automation/customcommand/definition.go:221-235 | No issues exactly when all variables are allowed and no braces remain. |
| `CommandDefinition.PiecesSpellTemplate` | internal/automation/customcommand/definition.go:226-232 | Variables and remaining text are a partition of the template. |
| `CommandDefinition.VariableIsFound` | internal/automation/customcommand/definition.go:226-232 | Every `{{name}}` in a template is found, whatever is around it. |
| `CommandDefinition.TypeLookup` | internal/automation/customcommand/definition.go:48-67 | For distinct names the type map is a search through the parameters. |
| `CommandDefinition.EveryoneIsUnprivileged` | internal/automation/customcommand/definition.go:192-214 | A valid command for everyone neither mutes nor sends to other groups. |
| `CommandRegistry.Registry.Replace` | internal/automation/customcommand/registry.go:41-68 | The snapshot becomes the specified one, or stays on an error. |
| `CommandRegistry.Registry.Upsert` | internal/automation/customcommand/registry.go:70-98 | The snapshot becomes the specified one, or stays on an error. |
| `CommandRegistry.Registry.Remove` | internal/automation/customcommand/registry.go:100-115 | The command and its name leave the snapshot together. |
| `CommandRegistry.Registry.Conflicts` | internal/automation/customcommand/registry.go:117-127 | On inverse maps: whether the name is a builtin's or taken in the plain map by another id. |
| `CommandRegistry.ConflictPredictsUpsert` | internal/automation/customcommand/registry.go:70-127 | Upserting an active command fails exactly if its name conflicts. |
| `CommandRegistry.Registry.Match` | internal/automation/customcommand/registry.go:129-142 | The command with the first field as its name, if it is global or lists the group. |
| `CommandRegistry.InScope` | internal/automation/customcommand/registry.go:180-190 | A global command is in scope everywhere, another one in exactly the groups it lists. |
| `CommandRegistry.CompileStoredCommand` | internal/automation/customcommand/registry.go:192-205 | Which commands may be stored; an active one is enabled and no other is. |
| `CommandRegistry.UpsertRefines` | internal/automation/customcommand/registry.go:70-98 | On inverse maps, upserting is the update of a plain map from ids to active commands, errors included. |
| `CommandRegistry.DropIsRemoval` | internal/automation/customcommand/registry.go:100-115 | On inverse maps, removing is the removal from the plain map. |
| `CommandRegistry.ReplaceRefines` | internal/automation/customcommand/registry.go:41-68 | Replacing with distinct ids is the same on the plain map, errors included. |
| `CommandRegistry.ReplaceIsConsistentIff` | internal/automation/customcommand/registry.go:41-68 | A successful replacement leaves inverse maps exactly when its active commands have distinct ids. |
| `CommandRegistry.RepeatedIDExample` | internal/automation/customcommand/registry.go:41-68 | A repeated id leaves a name that its id no longer leads to. |
| `CommandRegistry.RegistryRefinesMap` | internal/automation/customcommand/registry.go:41-115 | After any sequence of operations whose replacements have distinct ids, the two maps are inverse, no builtin is shadowed, and the contents are those of the plain map. |
| `CommandRegistry.MatchFindsActive` | internal/automation/customcommand/registry.go:129-142 | A command is matched exactly when it is active, named by the first field, and global or for this group. |
| `CommandRegistry.MatchAgreesWithParser` | internal/automation/customcommand/registry.go:129-142 | A message matched to a command and tokenized begins with that command's name. |
| `CommandExecutor.FormatIntRoundTrip` | internal/automation/customcommand/parser.go:62-67 | The normalized form of an integer argument parses back to it. |
| `CommandExecutor.NumbersAreSignedDigits` | internal/automation/customcommand/parser.go:62-67 | Only digits with at most one sign are read as a number. |
| `CommandExecutor.SignedDigits` | internal/automation/customcommand/parser.go:62-67 | Every such text is read as the number it denotes, if it fits 64 bits. |
| `CommandExecutor.DurationNotations` | internal/automation/customcommand/parser.go:149-165 | Seconds and days as written mean what they say. |
| `CommandExecutor.ParseDurationIff` | internal/automation/customcommand/parser.go:149-165 | Exactly seconds, one to thirty days and whole seconds in Go's notation are durations, and how long each is. |
| `CommandExecutor.ParseArgument` | internal/automation/customcommand/parser.go:52-95 | The branches by parameter type compute the specified value. |
| `CommandExecutor.VariablesHaveValues` | internal/automation/customcommand/definition.go:221-235 | Every variable in a template of a valid command is the sender, the group or a parameter whose argument was read. |
| `CommandExecutor.AcceptedIff` | internal/automation/customcommand/parser.go:52-95 | Exactly the arguments within the limits of their parameter are accepted, with the value they denote. |
| `CommandExecutor.ValidQQIff` | internal/automation/customcommand/parser.go:167-177 | A QQ number is a positive number of up to 32 digits. |
| `CommandExecutor.VariableRenders` | internal/automation/customcommand/parser.go:179-191 | `{{sender_qq}}`, `{{group_id}}` and `{{name}}` become the sender, the group and the argument, and the text around is rendered as if alone. |
| `CommandExecutor.PlainTemplateRenders` | internal/automation/customcommand/parser.go:179-191 | A template without variables renders to itself. |
| `CommandExecutor.RenderConcat` | internal/automation/customcommand/parser.go:179-191 | Rendering replaces piece by piece. |
| `CommandExecutor.ParsedIsWithinLimits` | internal/automation/customcommand/parser.go:52-95 | Every parsed argument is within its parameter's limits. |
| `CommandExecutor.ParseMessage` | internal/automation/customcommand/parser.go:21-50 | Succeeds exactly for parsable messages, with one value for each parameter. |
| `CommandExecutor.ValuesAreWithinLimits` | internal/automation/customcommand/parser.go:21-50 | Required arguments are present and present ones within limits. |
| `CommandExecutor.ExecuteAction` | internal/automation/customcommand/executor.go:84-122 | The calls made are the action's effects up to the first failure. |
| `CommandExecutor.RunActions` | internal/automation/customcommand/executor.go:51-81 | For every gateway: the calls are the flattened plan up to the first failure, steps are successes, at most one failure, then skipped, and the result is success, partial, unknown or failed exactly by how much of the plan was confirmed. |
| `CommandExecutor.Execute` | internal/automation/customcommand/executor.go:22-82 | Carried out exactly when the context is valid, the permission covers the sender's role, the arguments parse and may be used, and the gateway is there; otherwise nothing is sent and result and code say why. |
| `CommandExecutor.MemberArgumentsAllowed` | internal/automation/customcommand/executor.go:167-175 | The sender may be named only where the parameter allows it. |
| `CommandExecutor.ValidActionsHaveEffects` | internal/automation/customcommand/definition.go:160-219 | Every action of a valid definition has an effect. |
| `CommandExecutor.EveryoneStaysInGroup` | internal/automation/customcommand/executor.go:84-122 | A command for everyone only replies and mentions in its own group. |
| `CommandExecutor.PrivilegeNeedsTrust` | internal/automation/customcommand/service.go:483-494 | A valid command that mutes or sends across groups is only triggered by owners, administrators or allowlisted maintainers. |
| `CommandExecutor.MuteIsBoundedIff` | internal/automation/customcommand/executor.go:101-108 | A mute lasts between one second and thirty days exactly when its duration is fixed or was given. |
| `CommandExecutor.MuteForNoTimeExample` | internal/automation/customcommand/executor.go:101-108 | A valid command with an optional duration left out mutes for zero seconds. |
| `CommandExecutor.MemberIsNamedIff` | internal/automation/customcommand/executor.go:91-108 | A mute or a mention by parameter names a member exactly when that argument was given. |
| `CommandExecutor.MentionNobodyExample` | internal/automation/customcommand/executor.go:91-99 | A valid command with an optional member left out mentions the empty member. |
| `Limiter.LoginLimiter.constructor` | internal/management/auth/limiter.go:45-56 | A new limiter is empty; the configuration must allow two buckets. |
| `Limiter.LoginLimiter.Check` | internal/management/auth/limiter.go:58-69 | Limited exactly when a key's bucket is exhausted; without eviction and with nondecreasing times, exactly when the log counts enough failures against one of the two keys. |
| `Limiter.LoginLimiter.RecordFailure` | internal/management/auth/limiter.go:71-89 | Both keys get one more failure, neither is evicted for the other, every eviction takes a bucket seen least recently among the others, and the table stays within capacity. |
| `Limiter.LoginLimiter.RecordSuccess` | internal/management/auth/limiter.go:91-96 | Expired buckets and the user name's bucket go, nothing else. |
| `Limiter.LoginLimiter.CheckPasswordChange` | internal/management/auth/limiter.go:98-107 | The same check for a password change. |
| `Limiter.LoginLimiter.RecordPasswordChangeFailure` | internal/management/auth/limiter.go:109-125 | The same record for a password change, under one key. |
| `Limiter.LoginLimiter.RecordPasswordChangeSuccess` | internal/management/auth/limiter.go:127-132 | Expired buckets and the user's bucket go, nothing else. |
| `Limiter.LoginLimiter.CleanupExpired` | internal/management/auth/limiter.go:134-140 | Exactly the buckets whose window has ended are removed. |
| `Limiter.LoginLimiter.EvictOldest` | internal/management/auth/limiter.go:142-159 | The victim is an unprotected bucket with the oldest last sighting; there is none only if all are protected. |
| `Limiter.VictimExists` | internal/management/auth/limiter.go:142-159 | In a full table of at least two buckets a new key always finds a victim. |
| `Limiter.RecordedFacts` | internal/management/auth/limiter.go:71-89 | Recording keeps the capacity, the recorded and the protected keys, and every other bucket as it was; a bucket is lost exactly if the key is new and the table full. |
| `Limiter.FailureTracks` | internal/management/auth/limiter.go:71-89 | Recording without eviction keeps the table equal to what a naive log of failures says. |
| `Limiter.AttemptsAreCounted` | internal/management/auth/limiter.go:58-69 | The attempts in the cleaned table are the failures the log counts since the window opened or the last success. |
| `Limiter.WindowHolds` | internal/management/auth/limiter.go:80-86 | With nondecreasing times all failures counted lie within the window of the one that opened it. |
| `Limiter.NormalFormsShare` | internal/management/auth/limiter.go:58-96 | Spellings of a user name with one normal form share their failures, and a success clears exactly those. |
| `PasswordHash.DecodeOfEncode` | internal/management/auth/password.go:81-82 | Unpadded base64 decoding undoes encoding, for all byte strings. |
| `PasswordHash.LineBreaksAreSkipped` | internal/management/auth/password.go:112-119 | Decoding skips line breaks anywhere, as the base64 decoder does. |
| `PasswordHash.LengthOfEncode` | internal/management/auth/password.go:108-111 | The encoded length is the one the parser bounds by, and the text holds no delimiter. |
| `PasswordHash.SplitOfJoin` | internal/management/auth/password.go:103-106 | Splitting at a delimiter undoes joining parts without it. |
| `PasswordHash.JoinOfSplit` | internal/management/auth/password.go:103-106 | Joining the parts gives the string back, and no part holds the delimiter. |
| `PasswordHash.ParseOfPrintedParams` | internal/management/auth/password.go:131-157 | Parsing printed cost parameters gives them back. |
| `PasswordHash.ParseOfPrint` | internal/management/auth/password.go:61-129 | Parsing a printed hash gives exactly its parameters, salt and key. |
| `PasswordHash.AcceptedIff` | internal/management/auth/password.go:99-167 | Exactly the strings of the printed form within the length limits are accepted, and they are read as the parameters, salt and key that their fields denote. |
| `PasswordHash.OwnHashVerifies` | internal/management/auth/password.go:61-97 | A hasher accepts its own hash without asking for an upgrade; one with other parameters asks for one. |
| `PasswordHash.OtherPasswordVerifiesIff` | internal/management/auth/password.go:86-97 | Another password verifies exactly when it derives the same key. |

## Left out

- HTTP handlers, permissions of administrators, data transfer mapping, exports, analytics and telemetry: plumbing around the modelled cores.
- Real I/O: MySQL, NapCat, spreadsheet download and language models are arbitrary answers; of the store only the transactions named in the table are modelled, and a failed transaction is one that rolls back or whose answer is lost.
- Argon2, HMAC and SHA-256: a derived key is arbitrary bytes of the right length, limiter buckets are keyed by what would be digested, and candidate digests are assumed injective where distinct ids are claimed.
- Constant-time comparison of derived keys: comparison is equality.
- Time zones and calendars: a day is an integer and a clock time is minutes of that day, as `NormalizeHHMM` leaves it.
- Text that is not valid UTF-8, except in the redactor, where it is a case of its own.
- Unicode lower casing beyond what can meet ASCII text, `normalizeLookup`, `normalizeText`, chat-markup parsing and Go's regular-expression parser: parameters of the model.
- The goroutine that closes a subscription when its context ends: it is a call of `EventHub.Hub.Close`.
- The hub's subscriptions are values in a table rather than separate heap objects with channels; a closed channel is a queue that can still be drained.
- The log lines, telemetry and published completion events of the scheduler, apart from the fact that a run's completion is published at most once per process.
- The automatic worker's review of an applicant (`automaticDecision`): whether a candidate is eligible, and for what action, is arbitrary.
- Evidence indexing, policies, student-id rules and the listing queries of join requests.
- The order in which the store picks automatic candidates and expired attempts: recovery is modelled one request at a time, in any order.
- Catalog and source-key lookups of the knowledge index, and the parser's paths, titles and categories.
- Ids already present on entries (`ensureEntryIDs`): the index does not use ids.
- Redaction of the fixed fields of an audit record (`RedactForRole`), which only bounds their lengths.
- Go's distinction between nil and empty arrays in redacted payloads.
- Idempotent reservation of a notice publication and its request hash.
- Persisting and retrying the record of a command run, argument digests, previews (`renderActions`), patches (`applyPatch`) and the management service around the registry.
- The parse of duration suffixes other than days (`time.ParseDuration`): a parameter.
- Issue messages of the command validator, whose paths and codes are kept.
