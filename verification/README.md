# Verified model of the Codex subscription router

The router shows one app-server connection to the desktop application and owns one real app-server child per
subscription. This project models its decision-making code in Dafny and proves what that code promises.

How the model is laid out, one module per component:

- `Router`, `RouterResults`, `RouterLaws`: the request router as a step system. Every lock-protected section of
  `internal/mux/mux.go`, and every call to a child, is one atomic step; a request is a token that carries its
  goroutine's local data, and steps of different requests interleave in any order. `Multiplexer.Mux` holds the same
  fields as the source's object, and each of its methods is proved to take exactly the step it stands for.
  Every request records what happened to it, and `RouterLaws` says which events may follow which, that each event is
  true of the state it was recorded in, and that the client is told exactly what the records say.
- `ServerRequests`: requests the children make of the desktop, with their rewritten ids, in the same style.
- `ChildRequests`: requests the router makes of one child, with the reader and waiter goroutines.
- `Quota`: the urgency score, the choice of an account and the pooled limits, over `real`.
- `ConfigSync` with `Text`: the line-based config synchroniser, with Go's `Split`, `TrimSpace` and `TrimSuffix`.
- `Store` with `Accounts`: routing state in memory, the state file, and saves that fail.
- `ThreadList`: pagination, the merged reply and the ownership it records.
- `Profile`, `ProfileResults`, `Streaks` with `Calendar`, `Sums` and `Averages`: the merged activity profile.
- `Processes`, `Fuses`: process attribution and the fuse wire of the Windows scripts.
- `Collections`: small facts shared by the components.
- `StableSort`: the insertion sort behind `sort.SliceStable`, also for comparators that are not transitive.

What the surroundings are assumed to do is written in the `Enabled` predicates: the desktop never reuses the id of an
unanswered request; a child answers only requests it received, each at most once, echoing the id; random account ids
are fresh; accounts are never removed while the router runs; a send that fails has delivered nothing; fewer than 2^64
ids are drawn from one counter. One more assumption is implicit, because `Router` does not look inside a child: the
desktop never uses an id that starts with `__codex_mux_`. A child's reader would take the response to it for the answer
to one of the router's own requests, and the desktop would not get it.

Where the code does less than a reader would expect, the model follows the code, shows where it happens, and says
exactly when the expected property holds:

- Listing threads overwrites owners, so a former owner can take a thread back (`ThreadList.FormerOwnerTakesBack`); a
  thread is sure to keep its owner exactly when nobody else lists it (`ThreadList.StickyIff`).
- After a failed save, repeating the call returns nil without saving (`Store.NilMeansSavedIff`,
  `Store.RetryAfterFailedSave`).
- The credential filter misses a setting written without a space before `=` (`ConfigSync.CredentialsForcedIff`,
  `ConfigSync.UnspacedCredentialLeaks`).
- The winner of the tolerant comparator need not be the best candidate (`Quota.WinnerNotMaximal`); it falls short by at
  most one tolerance per competitor (`Quota.WinnerNearMaximum`), and can by exactly that (`Quota.BoundAttained`). It is
  unbeaten, or the most urgent, whoever competes in whatever order, exactly when the comparator does not blur the
  candidates (`Quota.WinnerUnbeatenIff`, `Quota.WinnerMostUrgentIff`).
- The routing marker stays on when the scoped account is unknown or disabled (`RouterResults.ScopedRequests`).
- Go's zero time breaks a streak, so the longest streak can be too short and even shorter than the current one
  (`Streaks.ZeroDayBreaksRun`). Both exact conditions speak of the active days around 0001-01-01 alone:
  `Streaks.LongestIsTrueIff` and `Streaks.CurrentAtMostLongestIff`.
- Invocations without a type overwrite each other (`ProfileResults.UsageConservedIff`,
  `ProfileResults.EmptyTypeOverwrites`), and a bar in a plugin id can make different invocations share a key
  (`ProfileResults.KeyIff`, `ProfileResults.BarsCollide`).

## Model

| member | source | states |
|---|---|---|
| RouterResults.AnswersConserved | internal/mux/mux.go:153-205 | In every run, key by key, answers written, routes stored and goroutines that still owe an answer add up to the requests accepted; no key is answered more often than it was asked. |
| RouterResults.AnsweredOnce | internal/mux/mux.go:438-457 | In every run each single request has at most one answer, and has it exactly when neither a route nor a goroutine still holds the request. |
| RouterResults.VisitsDistinct | internal/mux/mux.go:497-513 | The accounts one request reaches, over all its failover rounds, are pairwise distinct known accounts, so there are at most as many as accounts. |
| RouterResults.FailoverPrepared | internal/mux/mux.go:336-366 | A request that was moved is delivered only straight after that account was chosen outside the exclusions with capacity in the snapshots used, resumed the thread, and was recorded as owner. |
| RouterResults.DeliveredToOwner | internal/mux/mux.go:352-359 | With at most one request in flight on a thread and no other writer of its owner, a moved request is delivered to the account recorded as owner at that moment. |
| RouterResults.OwnersStayKnown | internal/mux/mux.go:541-548 | In every run the router records only known accounts as thread owners. |
| RouterResults.StepLowersRank | internal/mux/mux.go:322-366 | Every step moves one request and lowers its rank, whose main part is the number of accounts not yet excluded. |
| RouterResults.RunsTerminate | internal/mux/mux.go:497-513 | Without new requests or account changes every run is at most as long as the total rank, so failover terminates. |
| RouterResults.StepAvailable | internal/mux/mux.go:222-304 | A request that is not waiting for a child always has a step of its own; none is stuck inside the router. |
| RouterResults.RestMeansWaiting | internal/mux/mux.go:427-457 | When the router has come to rest, every unanswered request is held by a child that has not replied. |
| RouterResults.RoutedToKnownAccount | internal/mux/mux.go:257-276 | While owners are known accounts, a request is refused at routing only without any account; an unscoped request about a recorded thread goes to its owner, any other unscoped one to a controller. |
| RouterResults.ScopedRequests | internal/mux/mux.go:246-256 | A plugin request that names a known and enabled account goes there without the marker; any other marker is ignored and stays on the message. |
| RouterLaws.TracesLawful | internal/mux/mux.go:222-366 | In every run, what happens to each request happens in a lawful order: which methods choose an account, where the request goes, what follows a usage limit, and what the client is told in each case, down to the error code. |
| RouterLaws.LimitedTurnContinues | internal/mux/mux.go:449-452 | A turn with a thread that hit a usage limit is answered without reaching another account only when no account is left outside the exclusions and the exhausted one, or a step of the move failed. |
| RouterLaws.RepliesEndRequests | internal/mux/mux.go:449-455 | An answer that is no usage limit of a turn goes to the client as it is, from the account the request was last delivered to, and the request is never delivered again. |
| RouterLaws.TurnsCheckTheirOwner | internal/mux/mux.go:322-334 | A turn stays with its owner when the owner has capacity or cannot be looked up; otherwise another account is chosen, the owner excluded. |
| RouterLaws.WhoChooses | internal/mux/mux.go:222-237 | Only new threads and turns with a thread choose an account, and a new thread is sent to the chosen one. |
| RouterLaws.StepsReport | internal/mux/mux.go:283-408 | No event is invented: an account was chosen because it had capacity, a choice failed because nobody outside the exclusions had, and a request was given up on for the cause named. |
| RouterLaws.ClientIsTold | internal/mux/mux.go:550-568 | In every run the answers written are, key and content, exactly those the histories of the requests end with. |
| RouterLaws.AnswersRecordOwners | internal/mux/mux.go:541-548 | The answer to thread/start, fork, resume or unarchive makes the answering account the owner of the thread it names, saved or not, and of no other thread; other answers change no owner. |
| RouterLaws.ThreadsAreSticky | internal/mux/mux.go:257-272 | Until somebody else records an owner for that thread, every unscoped request about it is routed to that account. |
| Router.NextKeepsInv | internal/mux/mux.go:283-304 | Every atomic step keeps the route table, the request tokens, their histories and the answer balance consistent. |
| Multiplexer.Mux.constructor | internal/mux/mux.go:98-115 | A new multiplexer is an initial state. |
| Multiplexer.Mux.HandleClient | internal/mux/mux.go:153-177 | Dispatch of a request with an id is the accepting step of the system. |
| Multiplexer.Mux.RouteExistingRequest | internal/mux/mux.go:246-277 | Scoped account, else recorded owner, else controller; turns with a thread go to the capacity check. |
| Multiplexer.Mux.StoreRoute | internal/mux/mux.go:283-296 | The route is stored before the send, and only when the child exists. |
| Multiplexer.Mux.DropRoute | internal/mux/mux.go:297-302 | A failed send takes its route back. |
| Multiplexer.Mux.HandleInbound | internal/mux/mux.go:438-457 | A response takes its route with it; usage-limit answers to turns go to retry, the others to the client, and responses without a route nowhere. |
| Multiplexer.Mux.RetryTurnAfterUsageLimit | internal/mux/mux.go:497-513 | The exhausted account joins the exclusions; without a thread the client is told that all subscriptions are depleted. |
| Multiplexer.Mux.RecordFailover | internal/mux/mux.go:352-355 | Success leaves the target on record as owner. |
| Multiplexer.Mux.LearnThreadOwner | internal/mux/mux.go:541-548 | Only answers to the four thread methods with a thread id change the owners. |
| Multiplexer.Mux.SetThreadOwner | internal/state/store.go:227-238 | The owner map changes in memory whether or not the save succeeds. |
| Multiplexer.Mux.WriteAnswer | internal/mux/mux.go:550-563 | One answer, with its content, goes out under the output lock. |
| ServerRequests.ServerIDInjective | internal/mux/mux.go:516-517 | Rewritten ids determine their sequence number, whatever characters account ids contain. |
| ServerRequests.RewrittenIDsDistinct | internal/mux/mux.go:515-527 | No two server requests of a run are shown under one id, even when children reuse ids. |
| ServerRequests.RepliesReachOrigin | internal/mux/mux.go:410-425 | Every reply goes to the child whose request it answers, with that request's own id, and each request gets at most one. |
| ServerRequests.FirstReplyCounts | internal/mux/mux.go:410-425 | In every run the first client message with the id of a stored request becomes a reply to the child that sent it; any further one changes nothing. |
| ServerRequests.RepliesAreSent | internal/mux/mux.go:422-424 | A reply keeps its destination, is sent exactly when the child takes it, and stays sent. |
| ServerRequests.Translator.constructor | internal/mux/mux.go:107-107 | A new translator is an initial state. |
| ServerRequests.Translator.NextSequence | internal/mux/mux.go:516-516 | Sequence numbers count the requests. |
| ServerRequests.Translator.ForwardServerRequest | internal/mux/mux.go:515-527 | The new id is not in the table yet, and now leads to the origin. |
| ServerRequests.Translator.HandleServerRequestResponse | internal/mux/mux.go:410-421 | A known id yields its origin and leaves the table; an unknown one changes nothing. |
| Protocol.StringIDKey | internal/protocol/message.go:37-44 | The key of a generated id is the id itself. |
| ChildRequests.CallKeyInjective | internal/backend/child.go:109-110 | Different requests to one child have different keys. |
| ChildRequests.NextKeepsInv | internal/backend/child.go:108-190 | Every step of callers, reader and waiter keeps pending entries, channels and stages consistent. |
| ChildRequests.SendsNeverBlock | internal/backend/child.go:163-183 | In every interleaving each channel is sent to at most once, so neither reader nor waiter blocks, the waiter not even under its lock. |
| ChildRequests.CallsKeepTheirOwn | internal/backend/child.go:111-136 | Every pending key belongs to a request in flight, and a request only ever returns its own response. |
| ChildRequests.MessagesReachCalls | internal/backend/child.go:120-130 | In every interleaving each message put on a channel is still there or is exactly what its request returned; a request in flight has its message pending, on the way or put; a request that reports a closed child is right. |
| ChildRequests.CallsEndForCause | internal/backend/child.go:116-135 | A request ends only by a message, a failed send, its context or the closed child, and returns what ended it. |
| ChildRequests.NoCallStuck | internal/backend/child.go:132-134 | Once the child is closed every unfinished request has an enabled step, or the waiter it waits for has one. |
| ChildRequests.StepLowersWeight | internal/backend/child.go:108-190 | Every step other than a new request lowers the weight. |
| ChildRequests.RunsTerminate | internal/backend/child.go:108-190 | Without new requests every run is finite, with an explicit bound. |
| ChildRequests.RestMeansReturned | internal/backend/child.go:175-184 | A closed child that has come to rest has returned from every request. |
| ChildRequests.Child.RegisterCall | internal/backend/child.go:111-114 | The key inserted was not pending. |
| ChildRequests.Child.RemovePending | internal/backend/child.go:186-190 | Removal and return are the removing step of the protocol. |
| ChildRequests.Child.TakePending | internal/backend/child.go:155-166 | A pending key is removed and its channel has room; an unknown key changes nothing. |
| ChildRequests.Child.DrainEntry | internal/backend/child.go:180-183 | One pending entry is sent the exit message and deleted; the send finds room. |
| ChildRequests.Child.DrainPending | internal/backend/child.go:178-183 | Every channel still pending gets exactly the exit message, no other channel changes, and the map ends empty. |
| Quota.WindowRoles | internal/mux/accounts.go:450-468 | The longest and shortest window by duration; on a tie the secondary counts as the longer. |
| Quota.UrgencyRange | internal/mux/accounts.go:350-374 | -1 for an unknown window, otherwise between 0 and 8700. |
| Quota.UrgencyFallsWithUse | internal/mux/accounts.go:354-354 | More usage never raises the score, and lowers it between 0 and 100 percent. |
| Quota.UrgencyFallsWithLaterReset | internal/mux/accounts.go:359-364 | A reset further in the future never raises the score, and lowers it while quota remains, from a minute ahead on and within 64-bit nanoseconds. |
| Quota.UrgencyRisesWithCredits | internal/mux/accounts.go:369-372 | More banked credits never lower the score, raise it up to three while quota remains, and no longer count beyond three. |
| Quota.ScoreUntilReset | internal/mux/accounts.go:354-373 | The score times the hours until a future reset, at least a minute, is the percent left times the credit bonus. |
| Quota.ScoreAfterReset | internal/mux/accounts.go:359-364 | A reset that has passed scores like no reset at all. |
| Quota.ScoreWithoutReset | internal/mux/accounts.go:355-358 | Without a reset the same holds over the length of the window, or a week when it is unknown. |
| Quota.ScoreAll | internal/mux/accounts.go:316-329 | The in-place loop scores every candidate from its own window and credits. |
| Quota.ChooseAccountExcluding | internal/mux/accounts.go:241-348 | The filtering, scoring and sorting loops choose the first of the ranked candidates. |
| Quota.ChosenHasCapacity | internal/mux/accounts.go:253-267 | The chosen account is known, not excluded, and had capacity in a snapshot. |
| Quota.CapacityIs | internal/mux/mux.go:702-708 | An enabled and connected subscription has capacity unless its longer window is used up. |
| Quota.ChoiceFailsIff | internal/mux/accounts.go:288-290 | Choice fails exactly when every known account with capacity is excluded. |
| Quota.WinnerNearMaximum | internal/mux/accounts.go:331-347 | The winner's urgency is within (n-1) millionths of the maximum, although the comparator is not transitive. |
| Quota.BoundAttained | internal/mux/accounts.go:331-347 | For every number of candidates there is a list whose winner falls short by exactly that bound. |
| Quota.BoundAttainedByChoice | internal/mux/accounts.go:241-348 | The same through real snapshots, for as many subscriptions as usage percentages leave room for. |
| Quota.WinnerNotMaximal | internal/mux/accounts.go:331-347 | Three real snapshots on which the first account is chosen although the third precedes it and is more urgent by more than the tolerance. |
| Quota.WinnerUnbeatenIff | internal/mux/accounts.go:331-347 | Whichever candidates of a set compete, in whatever order, none precedes the winner: exactly when "does not precede" is transitive on the set. |
| Quota.WinnerMostUrgentIff | internal/mux/accounts.go:331-347 | Likewise the winner has the greatest urgency exactly when every more urgent candidate of the set precedes every less urgent one. |
| Quota.WinnerMostUrgent | internal/mux/accounts.go:333-335 | In particular when urgencies alone are equal or more than the tolerance apart. |
| Quota.WinnerBestWhenSeparated | internal/mux/accounts.go:331-347 | When all key differences are zero or above tolerance, no candidate is better than the winner. |
| Quota.ChosenIsBest | internal/mux/accounts.go:241-348 | Then no qualifying snapshot outranks the chosen account by urgency, usage of the shorter and of the longer window, threads and age. |
| Quota.UnknownChosenLast | internal/mux/accounts.go:350-353 | An account with unknown usage is chosen only if every candidate's usage is unknown. |
| Quota.AverageRateLimitWindow | internal/mux/accounts.go:419-448 | The mean usage, the longest duration and the earliest reset of the windows present. |
| Quota.AverageWithinBounds | internal/mux/accounts.go:443-444 | The pooled usage times the number of windows is their total usage, so it lies between the least and the most used window; no window lasts longer or resets earlier than the pooled one. |
| Quota.AveragesJoin | internal/mux/accounts.go:424-431 | Every window present counts once in the total and in the number. |
| Quota.PoolsJoin | internal/mux/accounts.go:392-404 | The pool of two groups of subscriptions is the pool of the first followed by that of the second. |
| Quota.PoolOfOne | internal/mux/accounts.go:392-404 | One subscription contributes its window when it is enabled, connected, a ChatGPT one and has limits, else nothing. |
| Quota.AggregateRateLimits | internal/mux/accounts.go:387-417 | Fails exactly without an eligible subscription; reports depletion exactly when none has capacity. |
| Quota.DepletionIffNoChoice | internal/mux/mux.go:702-708 | The three capacity tests agree: an unrestricted choice fails exactly when no account has capacity, which is when the pool reports depletion. |
| StableSort.SwapIntoPlace | internal/mux/accounts.go:331-346 | One round of the in-place insertion sort. |
| StableSort.InsertionSort | internal/mux/accounts.go:331-346 | The in-place sort computes the sorted list of the specification. |
| StableSort.SortPermutes | internal/mux/accounts.go:331-346 | Sorting permutes. |
| StableSort.SortOrdersNeighbours | internal/mux/accounts.go:331-346 | An asymmetric comparator is enough to order neighbours. |
| StableSort.OrderedStays | internal/mux/accounts.go:331-346 | A list no element of which precedes its left neighbour is left as it is. |
| StableSort.SortOrders | internal/mux/mux.go:762-766 | A strict weak order orders the whole list. |
| StableSort.SortStable | internal/mux/mux.go:762-766 | Ties keep their order. |
| StableSort.AnyStableSort | internal/mux/mux.go:762-766 | For a strict weak order every stable sort gives this result, whatever the length. |
| ConfigSync.FilterConfig | internal/state/config.go:72-86 | Exactly the lines whose tracked section is kept, in order. |
| ConfigSync.RemoveTopLevelCredentialSettings | internal/state/config.go:88-104 | Exactly the lines that are not recognised credential settings before the first header. |
| ConfigSync.SyncIsolatedConfig | internal/state/config.go:37-50 | The text written for an isolated account. |
| ConfigSync.ProjectsSurviveSync | internal/state/config.go:41-50 | The isolated account's trimmed project sections survive exactly. |
| ConfigSync.SyncAbsorbs | internal/state/config.go:16-62 | What an earlier sync wrote leaves no trace in a later one; with equal primaries, syncing is idempotent. |
| ConfigSync.SharedTextOfSync | internal/state/config.go:37-46 | Re-read with the same section tracker, everything outside project sections depends on the primary text alone. |
| ConfigSync.SectionsOfSync | internal/state/config.go:37-50 | Section by section, for every name: the isolated account's own lines under "projects" and below, the forced settings and the primary's others at the top level, and exactly the primary's lines everywhere else. |
| ConfigSync.TopLevelOfSync | internal/state/config.go:88-104 | The top-level settings are the two forced ones, then the primary's without its recognised credential settings. |
| ConfigSync.CredentialsForcedIff | internal/state/config.go:96-99 | Only the forced credential settings remain exactly when every credential assignment of the primary has the recognised spelling. |
| ConfigSync.UnspacedCredentialLeaks | internal/state/config.go:96-97 | A concrete setting that slips through. |
| Accounts.Find | internal/state/store.go:133-142 | Finds a record exactly when one with the id exists. |
| Accounts.Controller | internal/state/store.go:144-156 | A controller when there is one, else the first account, none only without accounts. |
| Store.RunsStayConsistent | internal/state/store.go:158-271 | Over every run, with any number of restarts, ids stay distinct, exactly one controller exists and is found, owners are known accounts, the file is the complete memory of the last successful save, and no account that was ever saved disappears. |
| Store.SessionKeepsAccounts | internal/state/store.go:158-218 | Between restarts no account is removed, and every version since lists it. |
| Store.SurvivesRestartIff | internal/state/store.go:62-75 | An added account survives a restart exactly when its own save or a later one succeeded. |
| Store.ReopenRestores | internal/state/store.go:62-75 | Reopening always succeeds and restores exactly the memory of the most recent successful save, so all of it when the last change was saved. |
| Store.OpensIff | internal/state/store.go:62-90 | A store opens only on a file of version 1, with what it holds, or without a file once a single enabled controller is saved; any other file refuses. |
| Store.AddTakesEffect | internal/state/store.go:158-193 | A new account is found under its id, enabled, no controller, with the given title and home, in the file too once saved; nothing else changes. |
| Store.UpdateTakesEffect | internal/state/store.go:195-218 | An update sets the trimmed title and the enabled flag it names on the one account, in the file too once saved; without the account or with a blank title nothing changes. |
| Store.SavedUpdateStays | internal/state/store.go:195-218 | A saved update is what memory holds until the account is updated again, whatever else happens, and what a restart finds. |
| Store.NilMeansSavedIff | internal/state/store.go:233-237 | A nil return leaves the file equal to memory unless the equal-owner shortcut ran over a file already behind. |
| Store.RetryAfterFailedSave | internal/state/store.go:233-237 | After a failed save the same call returns nil although the file lacks the owner. |
| Store.SetThreadOwnerInMemory | internal/state/store.go:227-238 | The store's step agrees with the owner update the router uses. |
| Store.RoutingStore.constructor | internal/state/store.go:76-87 | Opening without a state file starts with one enabled controller, already saved, and no owners. |
| Store.RoutingStore.Reopened | internal/state/store.go:62-75 | Opening on the file another store left is the restarting step and keeps the invariant. |
| Store.RoutingStore.SaveLocked | internal/state/store.go:250-271 | The file is replaced as a whole or not at all. |
| Store.RoutingStore.AddAccount | internal/state/store.go:158-193 | Appends an enabled non-controller record and keeps the invariant, even when the save fails; returns the record its id finds. |
| Store.RoutingStore.UpdateAt | internal/state/store.go:202-211 | Only title and enabled flag of the one record change. |
| Store.RoutingStore.UpdateAccount | internal/state/store.go:195-218 | The first record with the id changes and is returned; unknown ids and blank titles change nothing. |
| Store.RoutingStore.SetThreadOwner | internal/state/store.go:227-238 | Success means the owner is recorded in memory. |
| Store.RoutingStore.ThreadCounts | internal/state/store.go:240-248 | Exactly the owning accounts, each with the number of its threads. |
| ThreadList.ListAllThreads | internal/mux/thread_list.go:47-86 | The loop terminates for a finite cursor set and returns the concatenation of the pages requested. |
| ThreadList.RequestedIsWalk | internal/mux/thread_list.go:55-85 | Each cursor is requested at most once and comes from the reply before it; the walk stops only at an error, the last page or a repeated cursor. |
| ThreadList.PagesCount | internal/mux/thread_list.go:71-76 | A listing holds every thread as often as the pages it requested. |
| ThreadList.SortThreads | internal/mux/mux.go:762-775 | Sorting by update time, else creation time, else zero, newest first. |
| ThreadList.RecordListing | internal/mux/thread_list.go:31-36 | One account's listing is recorded thread by thread, whichever saves fail. |
| ThreadList.AggregateThreadList | internal/mux/thread_list.go:29-44 | Owners and reply are the recorded entries and sorted pages of all listings in order of arrival; the store's invariant holds. |
| ThreadList.MergedReply | internal/mux/thread_list.go:38-44 | The reply holds every thread as often as all listings together, in non-increasing order of update time, else creation time, else zero, and in order of arrival for equal times. |
| ThreadList.OwnersAfterListing | internal/mux/thread_list.go:30-34 | Every non-empty listed id ends up with the last account that listed it; all other owners are unchanged. |
| ThreadList.ListerListed | internal/mux/thread_list.go:30-34 | That account did list the thread. |
| ThreadList.LastToAnswerOwns | internal/mux/thread_list.go:29-36 | Of the accounts that list a thread the one that answers last becomes its owner; a thread nobody lists keeps its owner or has none. |
| ThreadList.StickyIff | internal/mux/thread_list.go:31-34 | A thread keeps its owner in every order of arrival exactly when every listing that holds it is its owner's. |
| ThreadList.FormerOwnerTakesBack | internal/mux/thread_list.go:31-34 | A former owner that answers last takes the thread back. |
| Calendar.OrdinalOfPrevious | internal/mux/combined_profile.go:331-336 | Going back one calendar day, over months, years and leap days, lowers the day number by one. |
| Calendar.OrdinalOrders | internal/mux/combined_profile.go:319-319 | Day numbers order days as the calendar does and determine them. |
| Calendar.ParseOfFormat | internal/mux/combined_profile.go:279-281 | Every day of a four-digit year survives formatting and parsing. |
| Calendar.FormatOfParse | internal/mux/combined_profile.go:315-318 | Whatever parses is the text of exactly one day. |
| Calendar.FormatInjective | internal/mux/combined_profile.go:330-336 | Different days have different texts, also outside four-digit years. |
| Calendar.TextOrderIsDayOrder | internal/mux/combined_profile.go:268-268 | Sorting the texts sorts the days. |
| Calendar.OneWeek | internal/mux/combined_profile.go:280-281 | The computed week start is the one Monday whose seven days contain the day. |
| Calendar.WeekdayOfAll | internal/mux/combined_profile.go:280-280 | 1 January 1970 is a Thursday, and every day follows its predecessor's weekday. |
| Calendar.MonthLengths | internal/mux/combined_profile.go:279-281 | The days that exist in each month of each year, by the Gregorian rule. |
| Streaks.LongestStreak | internal/mux/combined_profile.go:312-328 | For all sorted inputs, the longest run of active days that does not step over 0001-01-01; unparseable entries are skipped. |
| Streaks.CurrentStreak | internal/mux/combined_profile.go:329-337 | The loop terminates with the exact number of active days that end today, or yesterday when today is inactive. |
| Streaks.MergedStreaks | internal/mux/combined_profile.go:307-339 | Both streaks of one calendar. |
| Streaks.StreaksUnique | internal/mux/combined_profile.go:307-339 | These descriptions leave no choice. |
| Streaks.CurrentCounts | internal/mux/combined_profile.go:329-337 | In day numbers: exactly that many active days end today, or yesterday while today is inactive. |
| Streaks.ActiveIff | internal/mux/combined_profile.go:308-318 | A day is active exactly when its text is listed. |
| Streaks.LongestIsTrueIff | internal/mux/combined_profile.go:319-323 | The reported longest streak is the true one exactly when 0001-01-01 or the day after is inactive, or as many days as the run around them holds are active in a row elsewhere. |
| Streaks.CurrentAtMostLongestIff | internal/mux/combined_profile.go:319-338 | The current streak is at most the longest exactly when 0001-01-01 is inactive, or the anchor lies on or before it or beyond the active days that follow it, or as many days as then end at the anchor are active in a row elsewhere. |
| Streaks.CurrentAtMostLongest | internal/mux/combined_profile.go:338-338 | The current streak never exceeds the true longest one, nor the reported one unless 0001-01-01 and 0001-01-02 are both active. |
| Streaks.ZeroDayBreaksRun | internal/mux/combined_profile.go:319-319 | Two active days with a current streak of 2 and a longest of 1. |
| Profile.AddBuckets | internal/mux/combined_profile.go:238-240 | The map holds, for each date seen, all tokens of that date. |
| Profile.AddInvocations | internal/mux/combined_profile.go:241-250 | The merged map after one more profile. |
| Profile.MergeProfiles | internal/mux/combined_profile.go:220-251 | Totals are sums, the longest turn is the maximum, the weighted sums cover all profiles, and so do the maps of tokens, efforts and invocations. |
| Profile.MostUsedEffort | internal/mux/combined_profile.go:255-259 | An effort with the greatest weight, none when no weight is positive, for any order of ranging over the map. |
| Profile.KeysInOrder | internal/mux/combined_profile.go:264-268 | The keys in strictly increasing order, whatever the order of ranging over the map. |
| Profile.DateLoop | internal/mux/combined_profile.go:269-284 | Daily buckets, their prefix sums, the daily maximum and the weekly map. |
| Profile.TopInvocations | internal/mux/combined_profile.go:295-303 | The first five of the merged invocations by usage, for some order of ranging over the map. |
| Profile.AggregateProfileStatsAt | internal/mux/combined_profile.go:213-305 | The aggregation meets its whole report specification: totals, averages, daily, cumulative and weekly buckets, peak, streaks and ranking. |
| ProfileResults.TokensConserved | internal/mux/combined_profile.go:238-278 | Daily buckets hold exactly the input tokens of each input date and so all of them; each cumulative bucket adds its day to the one before, and the last is the total. |
| ProfileResults.WeeksConserved | internal/mux/combined_profile.go:279-292 | Each weekly bucket holds the input tokens of the seven days from its Monday, every parseable date has its week, and together they hold all parseable tokens. |
| ProfileResults.ReportOrderFree | internal/mux/combined_profile.go:213-305 | Everything but the ranking of invocations is independent of profile order, the most used effort up to efforts of the same weight. |
| ProfileResults.AveragesOrderFree | internal/mux/combined_profile.go:229-262 | The averages do not depend on profile order, nor does the most used effort unless weights tie. |
| ProfileResults.FastModeWithinBounds | internal/mux/combined_profile.go:252-254 | The combined fast-mode percentage lies between those of the profiles. |
| ProfileResults.EffortPercentWithinBounds | internal/mux/combined_profile.go:260-262 | The percentage of the most used effort stays between 0 and 100. |
| ProfileResults.AveragesCountThreads | internal/mux/combined_profile.go:229-262 | When all profiles have threads, both percentages times all threads are the thread-weighted sums. |
| ProfileResults.ThreadlessCountsAsOne | internal/mux/combined_profile.go:229-232 | A profile without threads weighs as much as one with a single thread. |
| ProfileResults.SingleProfile | internal/mux/combined_profile.go:220-262 | With one profile the report repeats its figures. |
| ProfileResults.TotalsAdd | internal/mux/combined_profile.go:220-228 | Totals of two groups of profiles add up, and the longest turn is the longer one. |
| ProfileResults.UsageBalance | internal/mux/combined_profile.go:241-250 | For every input, merged counts fall short of the input counts by exactly the overwritten ones. |
| ProfileResults.UsageConservedIff | internal/mux/combined_profile.go:243-248 | For positive counts, usage is conserved exactly when no invocation follows only untyped ones of its key. |
| ProfileResults.EmptyTypeOverwrites | internal/mux/combined_profile.go:244-245 | Of two untyped invocations of one key the first count disappears. |
| ProfileResults.KeyIff | internal/mux/combined_profile.go:242-242 | Without bars in type and plugin id, two invocations share a key exactly when type, plugin and skill agree. |
| ProfileResults.BarsCollide | internal/mux/combined_profile.go:242-242 | Two different invocations that share a key and are counted as one. |
| ProfileResults.MergedIsFirstTyped | internal/mux/combined_profile.go:243-249 | Under each key stands the first typed invocation, with the usage of all of that key from there on. |
| ProfileResults.MergedIsLastUntyped | internal/mux/combined_profile.go:243-249 | Without a typed one, the last untyped invocation with its own usage. |
| ProfileResults.TypedCounts | internal/mux/combined_profile.go:246-248 | With types everywhere, each key's merged count is the sum of its input counts. |
| ProfileResults.TypedUsageConserved | internal/mux/combined_profile.go:241-250 | With types everywhere nothing is lost and the counts do not depend on profile order. |
| ProfileResults.TopDominates | internal/mux/combined_profile.go:298-303 | At most five merged invocations, most used first, none twice, and none left out is used more. |
| Processes.AttributableProcessPids | scripts/windows/discovery.py:579-610 | The fixpoint loop terminates, also on cyclic parents, with the least attributable set in increasing order. |
| Processes.LeastUnique | scripts/windows/discovery.py:596-609 | There is only one such set. |
| Processes.AttributedMeans | scripts/windows/discovery.py:596-609 | Row by row: it holds the roots and, the baseline aside, every row that matches a path or has a tracked parent, and nothing that can be left out. |
| Processes.OrderIrrelevant | scripts/windows/discovery.py:590-609 | The result does not depend on the order or repetition of rows. |
| Processes.BaselineNeverAttributed | scripts/windows/discovery.py:600-601 | A baseline process is attributed only if it is the root or a seed. |
| Processes.GroupByParent | scripts/windows/discovery.py:561-564 | Each parent's children in row order. |
| Processes.VisitChildren | scripts/windows/discovery.py:570-575 | One parent's unseen children join result and queue in row order, after which that parent is fully listed. |
| Processes.ProcessTreePids | scripts/windows/discovery.py:558-576 | The result is duplicate-free, starts at the root, lists everyone after a parent, is closed under children, nobody comes before a pid closer to the root, and siblings keep row order. |
| Processes.QueueIsByDistance | scripts/windows/discovery.py:568-575 | First in, first out is what orders the result by distance from the root. |
| Processes.TreeIsLeast | scripts/windows/discovery.py:558-610 | With empty baseline, no seeds and no path matches, the tree is the least attributable set. |
| Fuses.ReadFuses | scripts/windows/fuses.py:33-56 | The byte loop and its errors, in order. |
| Fuses.ReadOkIff | scripts/windows/fuses.py:33-56 | Readable exactly when the first sentinel is followed by schema version 1, a count of 1 to 32 and that many bytes with a meaning; each is read as the text that stands for it. |
| Fuses.ReadNeedsSentinel | scripts/windows/fuses.py:35-37 | Nothing is read exactly when the sentinel text occurs nowhere. |
| Fuses.WriteKeepsSentinel | scripts/windows/fuses.py:35-35 | A byte written behind the first sentinel cannot bring up an earlier one. |
| Fuses.WriteThenRead | scripts/windows/fuses.py:59-76 | Reading back gives the old snapshot with only the named fuse changed. |
| Fuses.Binary.WriteFuse | scripts/windows/fuses.py:59-76 | Every error leaves the file alone; success changes at most the one byte, and returns the old value. |
| Fuses.WritesCommute | scripts/windows/fuses.py:59-76 | Writes to different fuses commute. |

## Left out

- JSON encoding and decoding beyond id strings: messages, params and the persisted state are datatypes; whether a
  response is a usage-limit error (`isUsageLimitResponse`) and which thread it names are fields of the model's response.
- HTTP: the control server, event publishing, profile and reset-credit requests, and credential files.
- Process spawning, environments and the launcher; the operating system's process snapshot is an input, and so is
  whether a row's executable lies in the mirrored tree.
- Real time: timeouts and cancelled contexts are steps that may fail at any moment, and `now` is a parameter.
- Rounding: floating point is modelled by `real`, also in the weighted averages of the profile.
- Overflow of token and usage sums beyond 64 bits, and of `time.Unix` near the ends of its range; the window duration
  and the time until reset do wrap and saturate as in Go.
- Notifications in either direction, and the buffer of the shared inbound channel.
- The requests inside `initialize`, `thread/list` and `account/rateLimits/read` as seen by the router: one step that
  answers. `ChildRequests` and `ThreadList` model what happens inside.
- Liveness across a child's death: routes of requests a dead child holds are never removed, so only "at most one
  answer" holds for them, not "eventually answered".
- RouterResults.DeliveredToOwner: assumes what the code does not enforce, that between recording and delivery no other
  request concerns the thread and no listing or notification changes its owner; `RouterResults.FailoverPrepared` needs
  neither.
- StableSort.InsertionSort: models what Go runs for up to 20 elements; beyond that Go merges sorted blocks. For strict
  weak orders `StableSort.AnyStableSort` covers every length; for the tolerant comparator it does not.
- Quota.ChooseAccountExcluding: takes the reset credits collected so far as a map, so a lookup that did not finish is a
  missing entry; the reported reason is not part of the result.
- ProfileResults.ReportOrderFree: excludes the ranking, which depends on the order in which Go ranges over a map when
  counts tie, and on which profile's names come first; and, of efforts with the same weight, which one is reported.
- Streaks.CurrentAtMostLongest, Streaks.CurrentAtMostLongestIff, Streaks.CurrentCounts: for a today within years 0 to
  9999 and no entry that reads "-0001-12-31", the text Go prints for the day before year 0.
- Store.RunsStayConsistent: starts from a store bootstrapped without a state file; a file edited by hand can hold
  anything.
- Config synchronisation as file operations: directory creation, permissions and the rename, and the failure these can
  cause when a store opens or an account is added; the model covers the texts.
- Desktop bundle patching, signing, access control, installers, renderer code and user interface.
