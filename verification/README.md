# NoobBoard verification

NoobBoard watches a home server: it polls apps and infrastructure, keeps a status
history and latency series, lets a language model diagnose problems, and runs a
small set of repairs on behalf of admins, users and itself. Its hard parts are
small stateful engines that forget, truncate, sweep or evict while they work.
This project models those engines and proves that what they forget does not
matter, and what it costs exactly where it does.

Each module is one component. Code that changes state is a class or a method with
loops, specified by a pure step function or predicate; the lemmas then speak about
that specification over every run.

- `History`, `StableSort`: the status history store. The file is an append-only
  log, memory its stably sorted view cut to the newest events of each subject.
- `Recorder`, `SnapshotStatus`, `EventWording`, `Uptime`, `Timeline`, `Interruptions`:
  snapshots become events, events become an uptime percentage; `SnapshotStatus` says what
  a snapshot's fields mean and what a poll causes, `EventWording` how its events read,
  `Timeline` joins recorder, store and walk end to end,
  and `Interruptions` says what restarts, repairs and absences do to the result.
- `RepairLimiter`, `Approvals`, `RepairGates`, `RepairControl`, `RepairRuns`,
  `RepairClocks`, `TokenReuse`, `RepairRequests`, `RequestFiling`, `RequestRaces`,
  `LateDecisions`: the repair control plane. `RepairGates` is what each path checks;
  `RepairControl` interleaves the handlers of all six limited repair paths, one step at
  a time, over one limiter and one replay guard; `RepairRuns` and `TokenReuse` are what
  its runs keep and allow, `RepairClocks` what they keep on any limiter clock;
  `RequestFiling` files requests from several handlers at once; `RequestRaces` has them
  decided by several admins at once, and `LateDecisions` says what may still come of one.
- `LoginThrottle`, `LoginRaces`, `Sessions`, `PersistentSessions`, `Eviction`: the
  bounded authentication stores; `LoginRaces` has logins overlap.
- `ProbeBaseline`, `LatencyBuckets`, `LatencyReturns`, `LatencyRows`: rolling probe windows,
  their median baseline, and the five-minute buckets written to the metric store, on a
  forward clock and on any; `LatencyRows` says what a row tells, field by field.
- `EventStream`, `StreamKinds`, `ToolLoop`, `ToolTrace`: the reader of streamed model
  responses, by concrete event types too, and the tool-call loop against an arbitrary
  model; `ToolTrace` is what the model and the tools see of it.
- `Pbkdf2`: the password hash, against section 5.2 of RFC 8018.
- `Models`, `Text`, `Collections`: shared values, identifier text, sequence laws.

How the model reads the code:

- An instant is an integer number of nanoseconds; 0 is Go's zero time. Clock
  readings are parameters. Lemmas that need a clock that does not go back say so.
- Ranging over a Go map visits keys in any order, so methods pick any remaining
  key, and specifications leave the order (or, among equal ranks, the evicted
  entry) open.
- Every mutex-guarded method is one atomic step. Writes succeed.
- JSON, base64, HMAC, random tokens, the container, storage, network and model
  clients are parameters that may answer anything.

Where the code differs from what its comments or shape suggest, the model follows
the code:

- An approval token is verified when its handler starts and consumed after the
  safety review, and the guard forgets a token once any call reads its expiry. So a
  token serves a second time exactly when a handler verifies it no later than its
  expiry and the guard, since the first time, has read an instant no earlier
  (`Approvals.StraddlingReview`). While the guard's clock does not go back that is
  the second consumption's own instant (`RepairRuns.OneActionPerToken`;
  `TokenReuse.TokenCanServeTwice` has a run). But the guard too reads its clock
  before its lock: `Approvals.AnyClock` says what it answers on any clock, and
  `Approvals.ReusedBeforeExpiry` has a token accepted twice before its expiry.
- Clear promises to delete matching events but looks only at memory, while the
  file also holds events that the cap dropped. `History.ClearReachesFileExactly`
  says when the file is reached, `History.ClearReachesFile` that one spelling per
  subject (which the recorder gives) is enough, `History.MixedSpellingsEscape` that
  it can otherwise fail.
- The limiter's callers read the clock before the lock, so a call can carry an
  earlier time than the sweep before it. It is then answered as of that sweep:
  `RepairLimiter.LateCall` says exactly when a limit is broken that way,
  `RepairLimiter.AnyClock` what the limiter answers on any clock at all,
  `RepairClocks.EveryActionGranted` what that means for the interleaved paths, and
  `RepairLimiter.ClockMustNotGoBack` has a run that breaks the hourly limit.
- A login lock does not protect its entry from the table's bound, which ranks by
  the first failure: `LoginThrottle.EvictionExactly` says before the call which
  logins can end a lock early, `LoginThrottle.LockHolds` carries that over runs, and
  `LoginThrottle.LockCanBeEvicted` has a run.
- Deciding a repair request loads it, and later writes it back without looking
  again. `LateDecisions.ActsExactly` says exactly which approvals can still act, and
  `LateDecisions.WrittenAgainExactly` when a settled request can still change; two
  actions for one request are a minute apart on one app
  (`RequestRaces.TwoActionsOverlap`), and `LateDecisions.OverlapHappens` has a run.
- Creating a repair request looks for a duplicate and files in two calls:
  `RequestFiling.OnePendingExactly` says exactly when two like requests come to be
  pending, and `RequestFiling.TwoAreFiled` has a run.
- The recorder does not compare every snapshot: a restart empties it, an absent app is
  forgotten, the verification of a repair has it observe, and a refresh only fills the
  cache. `Interruptions.UptimeError` gives, for any run with any of these, the exact
  error that makes in the measured uptime, and says exactly when there is none.
- The array's note does not ask whether the storage interface answers, as its status
  does, so an event can call an array healthy and its status unknown:
  `EventWording.ArrayEventReads` says exactly when.
- A login is checked and recorded in two calls, so the logins past their check when a
  key is locked still count, and one that fails late takes the lock away:
  `LoginRaces.FailuresPerWindow` has the bound for any number of them, and
  `LoginRaces.BoundReached` runs that reach it.
- The latency buckets too are locked after the clock is read: `LatencyReturns.AnyClock`
  says exactly when a subject's bucket is written twice.
- Formatting an absent JSON field gives the text `<nil>`. So a stream event's name
  is used only when the payload's type is present and blank
  (`EventStream.EventNameMatters`), and a tool call without an id has the id `<nil>`.
- The second deletion in the login limiter's `retryAfter` can never run: the prune
  just before it has removed every entry it could match.
- No code assigns the request status "approved".

`dafny verify dfyconfig.toml` checks the whole project.

## Model

| member | source | states |
|---|---|---|
| History.KeepPerSubject | internal/db/history.go:236-257 | The backward counting pass and the copying pass give exactly the truncation in which an event stays when fewer than cap later events share its subject; a cap of zero or less keeps everything |
| History.MarkNewest | internal/db/history.go:240-249 | The counts map and the keep array mark exactly the events that have fewer than cap later events of their subject |
| History.KeepIsNewestPerSubject | internal/db/history.go:236-261 | The truncation holds, for every subject, exactly its newest cap events in their order |
| History.KeepAfterInsert | internal/db/history.go:116-118 | Truncating before a new event is sorted in loses nothing that truncating afterwards would have kept, even when the new event is old |
| History.ForgettingIsHarmless | internal/db/history.go:91-120 | keep(sort(keep(sort(f)) ++ new)) = keep(sort(f ++ new)) |
| History.StepConsistent | internal/db/history.go:96-209 | Append, Clear and Prune each keep memory equal to the sorted, truncated view of the file |
| History.RestartAgreement | internal/db/history.go:61-120 | After any sequence of appends, clears and prunes, reopening the file with the cap in force gives exactly the state the process had |
| History.ClearReachesFileExactly | internal/db/history.go:146-165 | No matching event is left in the file after Clear if and only if memory held a matching event or the file held none |
| History.ClearReachesFile | internal/db/history.go:28-33 | When each subject's id is spelled alike, Clear leaves no matching event in the file, including those memory had dropped |
| History.MixedSpellingsEscape | internal/db/history.go:146-181 | A concrete file with two spellings of one subject from which Clear fails to delete a matching event |
| History.FileHistoryStore.Open | internal/db/history.go:47-94 | Opening yields the view of the file under the given cap, or under 500 when none is given |
| History.FileHistoryStore.Append | internal/db/history.go:96-120 | Appends to the file, re-sorts and re-truncates memory, and keeps the two consistent |
| History.FileHistoryStore.Query | internal/db/history.go:122-144 | The matching events newest first: the i-th result is the i-th matching event from the end, cut to a positive limit |
| History.QueryReturns | internal/db/history.go:122-181 | A query answers exactly with the events in memory of the kind, the id whatever its letter case, and the first instant that it asks for; a positive limit bounds the answer, and one that does not fill it has them all |
| History.FileHistoryStore.Clear | internal/db/history.go:146-165 | Memory and file lose the matching events of memory, the count is how many went, and nothing is written when there are none |
| History.FileHistoryStore.Prune | internal/db/history.go:183-209 | Leaves, in memory and file alike, for each subject the newest of its events in memory that are not older than a positive maximum age, as many as the new cap allows or else the old; no older event stays, and without a maximum age none is dropped for its age |
| History.PruneMeans | internal/db/history.go:183-209 | The same of any consistent store: which events a prune leaves, by their age, their subject and their rank within it; a cutoff at the zero time is no cutoff |
| StableSort.SortIsStable | internal/db/history.go:230-234 | The result is sorted by time, a permutation, and keeps events of equal time in order |
| StableSort.StableSortUnique | internal/db/history.go:230-234 | Only one sequence is sorted and keeps each time's events in order, so stability pins the sort down |
| StableSort.SortPrefixFirst | internal/db/history.go:116-117 | Sorting the old part before appending changes nothing |
| Recorder.SubjectsFromSnapshot | internal/history/recorder.go:76-140 | Later apps replace earlier ones of the same normalised id, blank ids are skipped, and the five infrastructure subjects come last; `SnapshotStatus.SubjectsShow` says with which statuses |
| Recorder.SnapshotRecorder.Observe | internal/history/recorder.go:29-33 | Rebaselines to the snapshot without emitting |
| Recorder.SnapshotRecorder.Record | internal/history/recorder.go:35-74 | Whatever the map order, emits exactly one event for each subject whose status changed and each vanished app not already unknown, and remembers every present subject, forgets vanished apps, keeps absent infrastructure |
| SnapshotStatus.SubjectsShow | internal/history/recorder.go:76-161 | For any snapshot: internet, DNS, WAN and NAS are there, online or offline by their own flags; the array is unknown without interface or state, online when healthy, degraded when started, else offline; an app is there exactly when some app has its normalised id, with the last such app's status, unset as unknown |
| SnapshotStatus.RemembersLastPoll | internal/history/recorder.go:43-72 | After a poll the recorder remembers exactly that poll's subjects |
| SnapshotStatus.PollCauses | internal/history/recorder.go:35-74 | Recording one poll after another causes for every subject exactly one event, from the status the first showed to the one the second shows (unknown for an app that is gone), if they differ, and none otherwise |
| SnapshotStatus.OneChangeOneEvent | internal/history/recorder.go:35-74 | A poll that differs from the last in the status of one subject causes exactly that one event |
| SnapshotStatus.DnsFails | internal/history/recorder.go:111-124 | When nothing but the DNS flag differs between two polls, the one event is of the DNS, from online to offline |
| EventWording.InfraEventReads | internal/history/recorder.go:102-153 | An event of the internet, DNS, WAN or NAS bears its name, and the good note exactly when the status is online now |
| EventWording.ArrayEventReads | internal/history/recorder.go:170-192 | What an event of the array says; it says healthy of an array that is not online exactly when the interface does not answer and the fields say healthy |
| EventWording.AppEventReads | internal/history/recorder.go:60-100 | An app event bears the name of the last app of its id, its summary or else that of the poll before, and when the app is gone its old name and that it is gone |
| Recorder.JoinBatches | internal/history/recorder.go:47-72 | The two loops emit for disjoint subjects and together for all that must |
| Timeline.PresentSubjectChains | internal/history/recorder.go:35-57 | A subject present in every snapshot yields a chain: From differs from To, each To is the next From, from the baseline to the remembered status, one event per change |
| Timeline.VanishedAppOnce | internal/history/recorder.go:58-72 | An app that vanishes yields one event to unknown (none if it was unknown), however long it stays away, and on return is the new baseline without an event |
| Timeline.FollowSplit | internal/history/recorder.go:35-74 | A run's events for one subject are those of its first part followed by those of the rest from where the first part left the subject |
| Timeline.EntryPerSubject | internal/server/agent_repair.go:244-248 | What a snapshot means for one subject: a poll's comparison, a restart's new baseline, a repair's own event for its target and a silent new baseline for all, or nothing for a refresh |
| Timeline.RunPerSubject | internal/history/recorder.go:35-74 | In the batches of any run, one subject's events are exactly what that subject alone would have caused |
| Timeline.SnapshotsAreWellKeyed | internal/history/recorder.go:76-161 | Every subject is filed under its own key and carries a trimmed id, for any snapshot |
| Timeline.ReconstructionIsTrue | internal/history/recorder.go:142-153 | Reading a present subject's events backwards from its current status gives, at every instant, the status of the last snapshot before it |
| Timeline.StoredRun | internal/db/history.go:96-120 | Appending a run's batches one after another leaves memory holding the view of all of them together |
| Timeline.FilterSelectsSubject | internal/db/history.go:170-181 | For trimmed ids, filtering by type and id with case folding selects exactly the events of one subject key |
| Timeline.TruncatedReconstruction | internal/server/apps.go:442-473 | From the last event dropped by the cap on, the newest cap events still reconstruct the true status |
| Timeline.NewestSuffice | internal/server/apps.go:442-473 | So the newest cap events, newest first, measure the true online time of any window that begins after the newest dropped event |
| Timeline.RunRemembers | internal/server/server.go:368-387 | Through any run of snapshots, each followed or not by a prune, memory holds a tail of every subject's events and lacks only what is no later than lo or has at least cap later events |
| Timeline.SuffixSuffices | internal/server/apps.go:451-462 | Dropping the oldest events up to an instant does not change the status reconstructed there |
| Timeline.UptimeIsTrue | internal/server/apps.go:442-473 | Recorder, store with its prunes, query and walk together, for a subject in every snapshot of a run of polls and a store opened on recorder events up to the window's start: the queried events are newest first, and in a window that no prune and no capped-out event reaches into they reconstruct at every instant what the snapshots saw, so the online time measured is the time the subject was seen online |
| Interruptions.ToldIsReconstructed | internal/server/apps.go:442-473 | Whatever happened, restarts, repairs, refreshes and absences included, the walk assigns to each instant the status left by the first event after it, or the status last shown |
| Interruptions.UptimeIsTold | internal/server/apps.go:442-473 | The whole pipeline over any run of polls, restarts, repairs, refreshes, absences and prunes: the online time measured is the time that the subject's events, read so, tell online |
| Interruptions.LoudIsTrue | internal/history/recorder.go:35-74 | As long as every change of the shown status has its event, from the status it leaves, absences counting as unknown, the events tell at every instant what the snapshots saw |
| Interruptions.ErrorIsExact | internal/server/apps.go:442-473 | For any run: the time told online exceeds the time seen online by exactly the sum, over the intervals between snapshots, of the interval's part of the window where it is told online less where it was seen online |
| Interruptions.ToldRightExactly | internal/server/apps.go:442-473 | For any run: the events tell at every instant of the window what was seen if and only if between any two snapshots with some of the window between them the status next left or shown without event is the one last shown |
| Interruptions.ToldOverGap | internal/history/recorder.go:46-53 | With a single snapshot that has no event, exactly the instants from the last event to it are told at the status it shows, while the snapshots had last shown the one before |
| Interruptions.GapError | internal/server/apps.go:442-473 | For a single such snapshot the error is the length of that time in the window, counted if it shows online, less the same if the one before did; it is zero if and only if there is no such time or both or neither were online |
| Interruptions.RestartInterrupts | internal/history/recorder.go:25-27 | A new baseline makes such an interruption of a subject that is otherwise in every snapshot |
| Interruptions.AbsenceInterrupts | internal/history/recorder.go:58-72 | So do an app's absence from some snapshots and its return |
| Interruptions.UptimeError | internal/server/status.go:209-210 | For the whole pipeline over any run of polls, restarts, repairs, refreshes, absences and prunes, whose last snapshot gives the current status: the measured online time is the time the subject was seen online plus exactly the error, and the reconstruction is right throughout the window if and only if it is between any two snapshots |
| Uptime.OnlineTime | internal/server/apps.go:442-466 | For events newest first, the accumulated time is the number of instants in the window whose reconstructed status is online |
| Uptime.UptimePct | internal/server/apps.go:442-473 | No result exactly for an empty window; otherwise, for events newest first, the exact unclamped share of the window spent online |
| Uptime.StatusesPartitionWindow | internal/server/apps.go:467-472 | The times spent in the six statuses add up to the window, so neither clamp ever fires |
| Uptime.NewestEventFirst | internal/server/apps.go:446-462 | Prepending the newest event only changes what counts as current |
| RepairLimiter.AgentRepairLimiter.Decide | internal/server/agent_plan.go:1056-1087 | Sweep, cooldown test, global test, optional reservation, with the zero time read as the clock and a blank id as "unknown" |
| RepairLimiter.AgentRepairLimiter.ExpireAll | internal/server/agent_plan.go:1091-1104 | The in-place sweep keeps exactly the per-app entries younger than a minute and, in order, the global ones younger than an hour |
| RepairLimiter.AgentRepairLimiter.ExpireApps | internal/server/agent_plan.go:1092-1096 | The first loop, whatever the map order: an entry stays exactly while its minute lasts |
| RepairLimiter.AgentRepairLimiter.ExpireGlobal | internal/server/agent_plan.go:1097-1103 | The compacting loop keeps the reservations of the past hour in order |
| RepairLimiter.RefusalMeans | internal/server/agent_plan.go:1071-1081 | Refused for cooldown exactly when the key was reserved within the last minute, for the global limit exactly when it was not and the fifth newest reservation is under an hour old, else allowed |
| RepairLimiter.DecideAgrees | internal/server/agent_plan.go:1056-1104 | One call on swept tables gives the decision of a log that keeps every reservation, and the two still agree |
| RepairLimiter.ForgettingIsSafe | internal/server/agent_plan.go:1089-1104 | On a clock that does not go back, the sweeping limiter answers every call of every run like one that remembers all reservations |
| RepairLimiter.GrantsAreSpaced | internal/server/agent_plan.go:1040-1044 | Over every run, any six consecutive reservations span at least an hour and two of one key are at least a minute apart |
| RepairLimiter.DisplayCallsChangeNothing | internal/server/agent_plan.go:1054-1055 | Removing every display-only call from a run changes no reserving call's answer |
| RepairLimiter.RetryAfterIsExact | internal/server/agent_plan.go:1071-1123 | RetryAfter is positive and the least wait: before it the same refusal repeats, from it on that reason is gone, and after a global refusal the call is allowed; RetryAfterSeconds is its ceiling |
| RepairLimiter.AnsweredAsOfSweep | internal/server/agent_plan.go:1070-1081 | A call whose reading is earlier than the last sweep is allowed exactly when no limit stood at that sweep |
| RepairLimiter.LateCall | internal/server/agent_plan.go:1031-1070 | After any forward run, a late call is granted against the full log's verdict if and only if a limit that stands at its own reading no longer stood at the last sweep; it is never refused against it |
| RepairLimiter.AnyClock | internal/server/agent_plan.go:1056-1104 | Over any run on any clock, a call is allowed if and only if no reservation of its key and fewer than five of all keys are live, a reservation dying with the first reading beyond its window |
| RepairLimiter.BreachMeansClockWentBack | internal/server/agent_plan.go:1056-1104 | Over any run, a grant that its own reading says is over a limit means that an earlier call had read an instant beyond a window this one still lies in |
| RepairLimiter.ClockMustNotGoBack | internal/server/agent_plan.go:1031-1033 | A run from the empty limiter, under normalised keys, after which a late call is granted a sixth reservation within the hour |
| RepairLimiter.SweptTooEarly | internal/server/agent_plan.go:1091-1104 | After a sweep at a later time five reservations are forgotten and a sixth is granted within their hour |
| Approvals.ReplayGuard.Consume | internal/server/agent_repair.go:510-530 | Sweeps expired keys and accepts exactly the keys not left; a blank nonce is refused without touching the map |
| Approvals.ConsumeAgrees | internal/server/agent_repair.go:519-529 | One call is accepted exactly when no earlier acceptance of its key is still unexpired |
| Approvals.AcceptedIffUnguarded | internal/server/agent_repair.go:510-530 | The same over every run: the swept map answers like a record of all acceptances |
| Approvals.SingleUse | internal/server/agent_repair.go:510-530 | On a clock that does not go back, a payload is accepted at most once among all calls made strictly before its expiry |
| Approvals.ReusedExactlyAfterExpiry | internal/server/agent_repair.go:519-523 | Presented again, the same token is accepted again if and only if its expiry has been reached |
| Approvals.VerifiedAtExpiry | internal/server/agent_repair.go:486-497 | The boundary itself: a token that verifies still verifies at its expiry instant, where the guard accepts it twice |
| Approvals.StraddlingReview | internal/server/agent_repair.go:39-128 | Over any run on any clock, a token already accepted verifies at an instant and is accepted by its next presentation if and only if that instant is no later than the expiry and some call since, its own or another, has read the expiry or later |
| Approvals.AnyClock | internal/server/agent_repair.go:516-529 | Over any run on any clock, a call is accepted if and only if for every earlier accepted call of its key some reading since has reached that call's expiry |
| Approvals.NonceTellsTokens | internal/server/agent_repair.go:526 | Two tokens alike in user, plan, action and target are one to the guard if and only if their trimmed nonces are the same |
| Approvals.ReusedBeforeExpiry | internal/server/agent_repair.go:516-523 | With one call of another token in between that has read the expiry, a token is accepted a second time by a call that itself reads an instant before it |
| RepairGates.FirstNamed | internal/server/apps.go:274-287 | The app found goes by the name; none is found only when none does |
| RepairGates.PermissionMeans | internal/server/repair_requests.go:261-338 | Whatever a path's gates let through goes to the app that the token, plan, request or user names in the snapshot read, which is not blacklisted, has opted in to the path's actor and passed an enabled review; only users stop apps, nobody restarts an exited one, agents start exactly the exited ones and restart all others, and only a stopped array is started |
| RepairGates.PermittedExactly | internal/server/agent_repair.go:38-121 | On every path, an order is permitted if and only if the stated facts hold: action, target and choice, opt-ins, blacklist, review, the states in which an app may be started or stopped; and the operation is a start of an exited app, a restart of any other, or what the user asked for |
| RepairGates.NamesMean | internal/server/apps.go:344-348 | Two names without blanks around them or a slash before them are one app's exactly when they differ in letter case only; one leading slash does not matter |
| RepairControl.ConsumeShared | internal/server/agent_repair.go:510-530 | In any state of the interleaved system a verified token is accepted if and only if no earlier acceptance of it is unexpired |
| RepairControl.StepKeepsShared | internal/server/agent_repair.go:122-134 | Every step of every handler keeps limiter and guard in agreement with the full record of grants and acceptances |
| RepairControl.StepKeepsGates | internal/server/agent_repair.go:39-121 | Every step keeps that checks were passed and tokens consumed only after the token verified, at an instant no later than its expiry |
| RepairControl.StepKeepsBookkeeping | internal/server/repair_requests.go:339-346 | Every step keeps each reservation and each accepted token with one handler or one action only |
| RepairRuns.AnyRun | internal/server/agent_plan.go:300-309 | All three hold after any interleaving of any number of handlers of the six paths |
| RepairRuns.EveryActionReserved | internal/server/repair_requests.go:710-720 | Every action sent has a granted reservation of its own key that no other action shares |
| RepairRuns.OnePerKeyAndMinute | internal/server/probes.go:159-171 | Two actions on one key were reserved at least a minute apart, on whatever paths |
| RepairRuns.FivePerHour | internal/server/agent_plan.go:1040-1044 | By reservation time no hour sees more than five actions over all paths together |
| RepairRuns.EveryActionGated | internal/server/agent_repair.go:38-128 | Every action sent is the one its request is permitted by what its handler read, under that app's limiter key, so all of PermissionMeans and PermittedExactly holds of it; and exactly the token paths consumed a token, which had verified no later than its expiry, for its user, the current plan and a registered action |
| RepairRuns.OneActionPerToken | internal/server/repair_requests.go:428-432 | On clocks that do not go back, two actions never share an accepted token; one token stands behind two only if the later handler verified it no later than its expiry and consumed it when the earlier acceptance had expired |
| RepairClocks.EveryActionGranted | internal/server/agent_plan.go:1031-1104 | Over any interleaving on any clocks, every action sent was granted by a limiter call of its own key that no other action shares, with no reservation of its key and fewer than five in all live then; and if that call's own reading says a limit was broken, an earlier call had read an instant beyond a window it still lies in |
| TokenReuse.ReviewOutlastsToken | internal/server/agent_repair.go:109-134 | Conversely, any permitted request whose token has served serves again when verified before the expiry and consumed after, a minute or more later |
| TokenReuse.TokenCanServeTwice | internal/server/agent_repair.go:39-134 | A possible run with two actions behind one token, whose second handler verified strictly before the expiry and consumed strictly after |
| RequestRaces.StepKeeps | internal/server/repair_requests.go:616-796 | Every step of any decision or repair path keeps that only approvals which loaded the request pending go on, and that all loads precede the first write |
| RequestRaces.TwoActionsOverlap | internal/server/repair_requests.go:616-796 | Over any interleaving, two actions for one request come from two approvals that both loaded it before anybody first settled it, and on one app they are at least a minute apart |
| RequestRaces.OnlyWritesChange | internal/server/repair_requests.go:639-650 | No event but a write-back, one for each decision, by an approval that has sent its action or finds it unsupported, or by a denial that has loaded, changes a stored status |
| RequestRaces.SettledAgain | internal/server/repair_requests.go:774-783 | A settled request is written again only by a decision that had loaded it before it was first settled |
| LateDecisions.ActsExactly | internal/server/repair_requests.go:616-796 | From any reachable state, an approval acts in some continuation if and only if it has passed its checks, or has them before it with a supported action and its request either loaded already or not settled by anybody yet |
| LateDecisions.SettledActsAgain | internal/server/repair_requests.go:625-639 | Once a request is settled, an approval with its checks before it that some state of the server would pass can still act for it if and only if it has loaded it |
| LateDecisions.WrittenAgainExactly | internal/server/repair_requests.go:774-783 | From any reachable state, a settled request is written again in some continuation if and only if a denial or approval that loaded it has not written yet, the approval being able to act still or finding the action unsupported |
| LateDecisions.OverlapHappens | internal/server/repair_requests.go:616-796 | A possible run in which a denied request turns executed and two actions are sent for it |
| RepairRequests.RequestBoard.Upsert | internal/db/store.go:336-347 | Replaces the first request with the same id, else appends |
| RepairRequests.RequestBoard.Find | internal/db/store.go:349-358 | The first request with the id, or none |
| RepairRequests.RequestBoard.FindDuplicate | internal/server/repair_requests.go:761-772 | The first pending request of the same requester, app and action |
| RepairRequests.RequestBoard.Create | internal/server/repair_requests.go:58-150 | Validation, visibility, duplicate check and insertion in that order, with the error of the first that fails |
| RepairRequests.RequestBoard.Decide | internal/server/repair_requests.go:597-796 | Deny resolves; approve passes the gates, reserves, acts and resolves by the client's answer; a refused gate leaves the request pending |
| RepairRequests.CreateKeeps | internal/server/repair_requests.go:110-139 | Creating keeps at most one pending request per requester, app and action, and changes no other request |
| RepairRequests.DecideMeans | internal/server/repair_requests.go:597-796 | A decision changes exactly the pending request it names, to denied, failed or executed by choice, gates and client, and no other |
| RepairRequests.RefusedWhen | internal/server/repair_requests.go:72-107 | When asking is a bad request, and when not found, each exactly |
| RepairRequests.CreateMeans | internal/server/repair_requests.go:108-139 | Otherwise the answer is a pending request like it if and only if there is one, and a new one, stored pending for the requester, the app found and a restart, if not |
| RepairRequests.DecideActs | internal/server/repair_requests.go:616-790 | A decision sends an action if and only if it approves, with control enabled, the app present, not blacklisted and opted in, the review passed and a place in the limiter, a pending request for a restart; and then it starts the app exactly when it has exited |
| RepairRequests.DecideKeeps | internal/server/repair_requests.go:616-640 | A decision moves only a pending request, keeps ids and pending uniqueness, and records at most one action for it |
| RepairRequests.RunKeeps | internal/server/repair_requests.go:774-780 | Over every sequential run: settled requests never change, no request is lost, each causes at most one action, and executed means an action that succeeded |
| RepairRequests.EveryActionHadLeave | internal/server/repair_requests.go:642-720 | Over every sequential run every action sent was sent by such an approval, for its request, as its app's state calls for |
| RequestFiling.UndisturbedIsCreate | internal/server/repair_requests.go:110-139 | The look for a duplicate and the filing, with nothing between them, do what the board's Create does |
| RequestFiling.DuplicatesOverlap | internal/server/repair_requests.go:110-139 | Over any interleaving of looks, filings and decisions, two requests of one requester, app and action are pending together only if each handler looked before the other filed |
| RequestFiling.OnePendingExactly | internal/server/repair_requests.go:110-139 | There is at most one such pending request all along if and only if no handler files while a like one, filed since its look, is still pending |
| RequestFiling.TwoAreFiled | internal/server/repair_requests.go:110-139 | For any accepted input, a possible run that leaves two like requests pending |
| LoginThrottle.LoginLimiter.PruneExpired | internal/server/auth.go:457-466 | Drops exactly the entries that are not locked and whose window has passed |
| LoginThrottle.LoginLimiter.RetryAfter | internal/server/auth.go:416-432 | Blocked exactly while a lock is unexpired, with the time left as the wait; the table is pruned and nothing else |
| LoginThrottle.LoginLimiter.RecordFailure | internal/server/auth.go:434-449 | Prune, evict to 2047, then count in the open window or open a new one, locking at the fifth |
| LoginThrottle.LoginLimiter.Counted | internal/server/auth.go:440-447 | One more failure in the open window, or the first of a new one, with the lock from the fifth on |
| LoginThrottle.LoginLimiter.Login | internal/server/auth.go:39-54 | The handler's check-then-record order, keeping at most 2048 keys |
| LoginThrottle.FailuresSpanWindow | internal/server/auth.go:416-449 | With at most n logins of a key past their check, 2n + 7 failures in a row span more than five minutes |
| LoginThrottle.NineSpanWindow | internal/server/auth.go:441-447 | Nine failures in a row of one key span more than five minutes when only one login is past its check at a time |
| LoginThrottle.EightPerWindow | internal/server/auth.go:39-50 | In any sequential run, a key without success or eviction has at most eight recorded failures in any closed five minutes |
| LoginThrottle.EightReached | internal/server/auth.go:441-447 | Eight is the best bound: a run that records eight failures within a nanosecond |
| LoginThrottle.LockLostExactly | internal/server/auth.go:457-490 | One login leaves an unexpired lock as it is unless its failure finds 2048 keys left of which none began earlier; then it is gone, but for the choice among keys that began at the same instant |
| LoginThrottle.EvictionExactly | internal/server/auth.go:457-490 | Before the call: a login can end an unexpired lock if and only if it will record a failure of another key while 2048 keys are left, none stamped earlier than the locked one; and ends it for certain if and only if moreover none is stamped alike |
| LoginThrottle.LockHolds | internal/server/auth.go:425-427 | Over any run a lock stands up to any point before its end if and only if no other key's failure evicted it by then; while it stands every login of the key is refused, and the next login can end it exactly under EvictionExactly's condition on the table before it |
| LoginThrottle.FailureMeans | internal/server/auth.go:434-449 | A failure counts on in an open window and starts at one otherwise; from the fifth on it locks for exactly ten minutes, before it leaves a lock of the window as it is |
| LoginThrottle.LockCanBeEvicted | internal/server/auth.go:468-490 | A run from the empty table that locks a key and then loses the lock to later failures of other keys |
| LoginRaces.FailuresPerWindow | internal/server/auth.go:39-54 | However checks, failures and successes of any logins interleave, on a clock that does not go back: a key without success or eviction and with at most n logins past their check has at most 2n + 6 recorded failures in any closed five minutes |
| LoginRaces.BoundReached | internal/server/auth.go:434-449 | For every n a run that records 2n + 6 failures of a key within a nanosecond, one of them taking the lock away |
| Sessions.SessionStore.PruneExpired | internal/server/auth.go:373-379 | Drops exactly the expired sessions |
| Sessions.SessionStore.Put | internal/server/auth.go:318-328 | Prunes, evicts to 511, inserts; a session without a token changes nothing |
| Sessions.SessionStore.Create | internal/server/auth.go:296-316 | Likewise for a new session, which lives for the given or the default time |
| Sessions.SessionStore.Get | internal/server/auth.go:330-344 | Finds exactly the unexpired session, never with a lapsed arm, and drops an expired one |
| Sessions.SessionStore.SetAgentArmed | internal/server/auth.go:346-365 | Arms until the given time but never past the session's end; a past or zero time disarms |
| Sessions.OnlyEvictionLoses | internal/server/auth.go:296-399 | Over every run the store holds every unexpired session a map that never evicts holds, up to a lapsed arm, unless it was evicted at a moment when 511 others expired no earlier |
| Sessions.NeverTooMany | internal/server/auth.go:381-399 | At most 512 sessions after any run |
| Sessions.ArmsStayWithin | internal/server/auth.go:355-362 | No arm outlasts its session over any run whose puts respect that |
| Sessions.ArmLasts | internal/server/auth.go:330-365 | An arm lasts exactly until the time asked for or the session's end, whichever is first: whatever else the store does, as long as the session is not set, deleted or evicted, reads return it before that instant and none from then on |
| Eviction.EnforceLimit | internal/server/auth.go:381-399 | The delete-least loop ends with exactly the limit when there were more, every survivor ranking no lower than anything dropped |
| PersistentSessions.Prune | internal/db/store.go:244-270 | In place: the usable records in their original order, without the first k of their stable sort by last sighting, k being the excess over a positive cap |
| PersistentSessions.CompactUsable | internal/db/store.go:247-254 | The in-place filter moves exactly the usable records to the front, in order |
| PersistentSessions.FindOldest | internal/db/store.go:259-266 | The first of the records unseen for longest |
| PersistentSessions.DropOldest | internal/db/store.go:258-268 | One turn of the loop deletes the head of the stable sort in place and keeps the order of the rest |
| PersistentSessions.ShiftOut | internal/db/store.go:267 | The in-place shift removes one position and keeps the rest in order |
| PersistentSessions.OldestHeadsSort | internal/db/store.go:258-268 | The record each turn deletes is the head of the stable sort, and what stays sorts to its tail |
| PersistentSessions.SurvivorsExactly | internal/db/store.go:244-270 | A record survives if and only if it is usable and not among the k longest unseen |
| PersistentSessions.PruneKeeps | internal/db/store.go:244-277 | No record kept is blank, without an expiry or expired; a positive cap is met; and a good record goes only when the cap is exactly filled without it, last seen (or, if never seen, created) no later than any that stays |
| ProbeBaseline.ProbeBaselineMs | internal/server/probes.go:91-107 | Zero with fewer than 20 successes, else the median of the successful latencies |
| ProbeBaseline.CountFailed | internal/server/probes.go:109-120 | The failed readings of the window |
| ProbeBaseline.FailuresAndSuccesses | internal/server/probes.go:91-120 | Every reading of a window counts either as a failure or toward the baseline |
| ProbeBaseline.ProbeWindows.Annotate | internal/server/probes.go:65-85 | Each reading is pushed, then annotated from its own window |
| ProbeBaseline.WindowIsLastReadings | internal/server/probes.go:76-80 | After any run each window is exactly the last 120 readings of its subject |
| ProbeBaseline.NotesDescribeWindows | internal/server/probes.go:74-84 | Every annotation describes its subject's last 120 readings up to that one |
| ProbeBaseline.MedianIsRobust | internal/server/probes.go:87-90 | If more than half of the values are at most a bound, so is the median, and likewise above, however far off the others |
| ProbeBaseline.MedianIsMiddle | internal/db/metrics.go:262-268 | The median is the value at the middle rank, or for an even count the mean of the two middle ones without its fraction |
| ProbeBaseline.MedianIgnoresOrder | internal/server/probes.go:101-106 | The median depends only on the multiset of values |
| ProbeBaseline.BaselineIsRobust | internal/server/probes.go:91-107 | The same for the baseline of a window with at least 20 successes |
| ProbeBaseline.FailuresDoNotCount | internal/server/probes.go:87-90 | Changing the latency of failed readings does not change the baseline |
| LatencyBuckets.BucketStartSnaps | internal/db/metrics.go:240-244 | Bucket starts are fixed points at most five minutes back, monotone, and distinct ones five minutes apart |
| LatencyBuckets.SummaryBounds | internal/db/metrics.go:246-270 | Minimum and maximum of a row are readings of its bucket and bound all of them |
| LatencyBuckets.BucketTracker.Record | internal/server/probes.go:266-302 | Readings join the open bucket; the first in another bucket flushes it and opens the new one; no readings, no change |
| LatencyBuckets.BucketTracker.Flush | internal/server/probes.go:281-291 | One row for every subject of the bucket, failures only or not, in whatever order; `LatencyRows.EveryRowExact` says what each tells |
| LatencyBuckets.EveryReadingCounted | internal/server/probes.go:266-302 | On a clock that does not go back: each subject and bucket is written at most once with exactly its readings, every closed bucket is written, and written plus open counts are all readings ever recorded |
| LatencyRows.EveryRowExact | internal/db/metrics.go:246-270 | On a clock that does not go back, every row written counts the failed and all logged readings of its subject and bucket; its minimum and maximum are attained and bound the successes, its median is at their middle by rank; with failures only all three are zero |
| LatencyReturns.AnyClock | internal/server/probes.go:266-302 | Over any run on any clock: each stay in a bucket that has been left has one row for each subject read in it, with exactly its readings; written and open readings are all there are; and a subject's bucket is written twice if and only if the subject's readings came back to that bucket after it was left, and it was left again |
| LatencyRows.EveryStayRowExact | internal/db/metrics.go:246-270 | On any clock the same of its subject and stay |
| EventStream.LinesOfUnlines | internal/llm/openai.go:320-340 | Lines printed with either line ending are read back unchanged |
| EventStream.StreamReader.Take | internal/llm/openai.go:339-355 | One line: a blank flushes, an event line names, a data line adds, comments and unknown fields pass |
| EventStream.StreamReader.Flush | internal/llm/openai.go:325-338 | Hands the joined payload to the accumulator unless there is none or it is the end marker, and clears the pending name |
| EventStream.StreamReader.Add | internal/llm/openai.go:373-402 | One payload: undecodable and error events stop the reader, deltas append, finished text and items fill in, a response is kept |
| EventStream.StreamReader.AddParts | internal/llm/openai.go:388-400 | Which part of an accepted event goes where |
| EventStream.ReadAll | internal/llm/openai.go:339-362 | The line loop hands on exactly the frames of the lines, in order, and stops at the first error |
| EventStream.Normalize | internal/llm/openai.go:312-425 | A blank body is an error, a JSON body passes through, a stream becomes its accumulated response |
| EventStream.PrintedTextReads | internal/llm/openai.go:320-362 | Any list of events printed as event and data lines is read back as exactly those names and joined payloads |
| EventStream.PrintedFramesRead | internal/llm/openai.go:339-362 | The same from classified lines |
| EventStream.PayloadIsLines | internal/llm/openai.go:330 | The payload of an event is the text of its data lines, but for the last newline |
| EventStream.CommentsArePassedOver | internal/llm/openai.go:347-349 | A line that starts with a colon is passed over |
| EventStream.PassedOverChangesNothing | internal/llm/openai.go:347-355 | Lines passed over change nothing wherever they stand, also inside a frame |
| EventStream.SecondBlankChangesNothing | internal/llm/openai.go:326-329 | Extra blank lines between frames change nothing |
| EventStream.FinalBlankChangesNothing | internal/llm/openai.go:360-362 | A missing final blank line changes nothing |
| EventStream.StreamGrows | internal/llm/openai.go:373-402 | The accumulator takes a stream if and only if it takes each event, and then holds what the events' parts amount to |
| EventStream.DeltasConcatenate | internal/llm/openai.go:392-397 | The text of any accepted stream is the finished text that fills in, if one does, followed by all deltas in order |
| EventStream.FillInMeans | internal/llm/openai.go:395-397 | A finished text fills in if and only if it comes before any other text |
| EventStream.ItemsCollect | internal/llm/openai.go:388-400 | The items of any accepted stream in order, and the response object of the last event that has one |
| EventStream.StreamMeans | internal/llm/openai.go:312-425 | Any body that is neither blank nor JSON yields a response if and only if every event is accepted and something came; it is the last response object with a blank text and an empty output filled from the stream |
| EventStream.StreamedTextArrives | internal/llm/openai.go:312-425 | Any printed stream, whatever other events it holds, comes out with its concatenated deltas as output text if and only if no finished text precedes them all, unless a response object brings a text of its own; a stream with a rejected event is an error |
| EventStream.BareDeltasArrive | internal/llm/openai.go:392-394 | In particular a stream of nothing but deltas arrives as exactly their concatenation |
| EventStream.EventNameMatters | internal/llm/openai.go:378-381 | The event line's name has an effect if and only if the payload's type is present and blank |
| StreamKinds.OneSpoilsAll | internal/llm/openai.go:373-386 | Events are taken unless, and only unless, one of them is no event, carries an error, is of type "error" or of a type ending in ".failed" |
| StreamKinds.FirstFailureTold | internal/llm/openai.go:373-386 | The error told is that of the first event that spoils the stream, with its payload |
| StreamKinds.FailureNeverAnswers | internal/llm/openai.go:373-402 | A stream with such an event never yields a response |
| StreamKinds.KindsMean | internal/llm/openai.go:387-400 | By concrete type: what a response.output_text.delta, a response.output_text.done, a response.output_item.done and a response.completed each bring, and that they bring nothing else |
| ToolLoop.AllowedAgentTools | internal/llm/agent.go:319-336 | The folded map allows exactly the tools whose last matching rule, named or star, says allow |
| ToolLoop.AgentToolsForRequest | internal/llm/agent.go:47-60 | Tools are offered only to admins with tools enabled and a live snapshot, and then exactly the allowed ones |
| ToolLoop.ParseCalls | internal/llm/agent.go:383-409 | The calls of a reply in order, skipping other items and blank ids or names; invalid arguments fail the reply |
| ToolLoop.Diagnose | internal/llm/openai.go:223-281 | The loop: post, read, check the budget before running anything, run, append, repeat |
| ToolLoop.RunCalls | internal/llm/openai.go:266-278 | Calls run in order until one is not offered or fails; each result is appended under its call's id |
| ToolLoop.ExecutedCounts | internal/llm/openai.go:266-278 | What runs is a prefix of the calls, all of offered tools, and all of them when none fails |
| ToolLoop.BudgetHolds | internal/llm/openai.go:236-265 | Against any model: at most the limit of executions, at most one post more, and only offered tools |
| ToolLoop.OutputsCarryEarlierIds | internal/llm/openai.go:265-279 | Every tool output in the conversation answers a call standing earlier in it |
| ToolLoop.DiagnosisIsBounded | internal/llm/openai.go:223-281 | For any request and any model: the budget (one by default) bounds posts and executions, every executed tool's last matching rule allows it, and every appended output answers an earlier call |
| ToolTrace.DiagnosisTraced | internal/llm/openai.go:223-281 | Every diagnosis, by what model and tools see: each post carries the prompt, every reply so far and after each one output per call with its id and the tool's text; a reply whose calls parse, are offered and fit the budget has them all executed in order, up to the first that fails; and the last reply alone says how the loop ends, with what was executed |
| ToolTrace.OverLimitExactly | internal/llm/openai.go:260-262 | The loop ends over its limit if and only if a reply's calls with all asked for before exceed the budget, and names their number |
| ToolTrace.SpoiledExactly | internal/llm/agent.go:383-409 | A reply is spoiled if and only if an item that asks for a tool has invalid arguments |
| ToolTrace.CallsListed | internal/llm/agent.go:383-409 | Otherwise its calls are exactly its items that ask for tools, in order, with their trimmed ids and names |
| ToolTrace.LastRuleDecides | internal/llm/agent.go:319-336 | One more rule decides a tool it names, or all by a star, and leaves the others as they were; without a rule nothing is allowed |
| ToolTrace.OfferedExactly | internal/llm/agent.go:47-60 | A tool is offered if and only if tools are enabled, the recipient is an admin, the snapshot live, the rules allow it and, for logs and history, the server has them |
| Pbkdf2.Int4IsBigEndian | internal/users/users.go:237 | The four shifted octets spell every block number below 2^32, most significant first |
| Pbkdf2.Block | internal/users/users.go:237-244 | The in-place loops leave T_i, the exclusive or of U_1 to U_c |
| Pbkdf2.XorInto | internal/users/users.go:241-243 | The inner loop replaces every octet by its exclusive or with u, bit by bit |
| Pbkdf2.BlockIsParity | internal/users/users.go:237-244 | Given the chain of codes of the rounds, a bit of a block is set if and only if an odd number of the codes have it set |
| Pbkdf2.Pbkdf2Sha256 | internal/users/users.go:232-248 | The first keyLen octets of the concatenated blocks, for every iteration count and length |
| Pbkdf2.HashPassword | internal/users/users.go:224-230 | The stored hash is T_1 with at least one round |
| Pbkdf2.DerivedKeyAt | internal/users/users.go:232-248 | Octet n of any derived key is octet n mod 32 of the xor chain of block n / 32 + 1, whatever the length |
| Pbkdf2.ShorterIsPrefix | internal/users/users.go:247 | A shorter key is a prefix of a longer one |

## Left out

- Failed and partial writes of the JSON stores: every write is assumed to succeed, so the rollback-free error paths are not modelled.
- Integer width: counts, milliseconds and instants are unbounded, and uptime and failure rate are exact fractions instead of floating point.
- Text outside ASCII: trimming and case folding cover ASCII only.
- Concurrency inside one mutex-guarded method; `RequestRaces` holds only the ids and statuses of requests, the records being those of `RepairRequests`; `RequestFiling` lets a decision's write come at any time.
- RepairRuns.EveryActionGated: a handler's successive reads are one check step; the auto-repair path's plan flags and its extra display-only cooldown test are not required, so the model lets through more there than the code does.
- RepairRuns.FivePerHour: the direct admin container control is not limited by the code and is not part of the bound, and the bound needs a limiter clock that does not go back; `RepairClocks.EveryActionGranted` has any clock.
- RepairRuns.OneActionPerToken: the interleaved system's guard clock does not go back; `Approvals.AnyClock` has the guard alone on any clock.
- LoginThrottle.EightPerWindow: runs are sequential; `LoginRaces.FailuresPerWindow` has overlapping ones. Both need a limiter clock that does not go back.
- Timeline.UptimeIsTrue: restarts, repairs, refreshes and absences are not part of its run, but of that of `Interruptions.UptimeError`; manual clears are part of neither, and a verification's snapshot counts from the instant its event bears.
- The metric store's append, clear, query and prune, and the seeding of probe windows from stored buckets: simpler relatives of the history store.
- The agent history tool passes on the last entries of a newest-first list, which are the oldest; that tool's result is not modelled.
- Decoding the final diagnosis and auditing tool calls: a reply without calls ends the loop as it is.
- Aliasing of Go slices held as sequences (the session, failure and sample maps, the event list); the persistent-session prune and the password hash keep their arrays.
- The stream scanner's limit on line length.
- Outcome polling after a repair, HTTP decoding, CSRF and origin checks, audit and notification text, privacy redaction, configuration, diagnostics rules, web assets and service code.
