# Protocol and stream proofs

Dafny models of the parts of this repository where order, timing and failure
decide the result, with proofs of what those parts are for. Run
`dafny verify dfyconfig.toml` to check everything.

- **Preference mutations** (`Tables`, `TrackPreference`, `PreferenceRefinement`,
  `PreferenceLifetimes`, `PreferenceEffects`, `TrackPreferenceStore`). Several
  components send overlapping like and dislike mutations for one track, and the
  answers come back in any order. The lanes, intents and cache are one value that a step changes;
  a run is any sequence of steps, with any callback arriving any number of times.
  The main result is a refinement: per client and track, every run is a run of a
  machine with one stable value, at most one pending ticket and the shown value.
  The class does the same in place, field by field.
- **Incident monitor** (`RouteMonitor`, `RouteMonitorHost`). A ledger keeps every
  recorded probe result, every event and every notify call since the state file
  was created. `Durable` says what the file and the ledger say about each other at
  every moment; every schedule of ticks keeps it although the process may be killed
  between any two actions of each.
- **Diagnostic journal** (`JournalReader`, `DiagnosticRecords`, `DiagnosticFields`,
  `DiagnosticDeliveries`, `DiagnosticConflicts`, `DiagnosticDedup`, `DiagnosticOutcome`,
  `DiagnosticOrder`, `DiagnosticTies`, `DiagnosticDeliveryOrder`, `Counting`,
  `DiagnosticReport`, `DiagnosticSummary`). The bounded chunked reader against plain line splitting, one-pass deduplication against what
  was delivered, the recovery classifier against a rule about the whole run, the
  report's counters against the sets they stand for, and the report as a whole
  against reordered and repeated deliveries.
- **Device-code sign-in** (`DeviceAuth`, `DeviceAuthProofs`, `DeviceAuthRuns`,
  `DeviceAuthEffects`, `DeviceAuthHook`). The hook between two turns of the event
  loop, with active timers and unanswered promises as part of the state, and every
  interleaving of starts, cancellations, answers and ticks as a run.
- **Smaller pieces**: the back-pressure adapter for concurrent ASGI responses
  (`EgressProbe`, `EgressAdapter`), the bounded scroll memory (`ScrollMemory`), the walk
  to a plan's root (`PlanChain`) and the playlist diversity metrics (`Diversity`).

Things the proofs brought out, each true of the code as it is:

- The outcome of a run can depend on the order of delivery when two different
  events of it share time and name: `DiagnosticDeliveryOrder.TiesAreVisible` gives two
  deliveries of the same three records. It does so exactly when the run's events say
  so (`DiagnosticDeliveryOrder.WhenDeliveryDecides`): among faults with one time and
  name the last delivered is the one to recover from, so it matters if the last such
  class is open, some of its members being recovered from and some not; or if
  nothing in it is recovered from, and of the classes from the last fatal error on
  one is open and none is recovered from in every order.
- `docs/observability/playback-diagnostic-summary.md:29` speaks of an advancing
  `recovery_resumed`; the code only asks for a position above zero
  (`scripts/playback_diagnostic_summary.py:235-239`). A rebuffer at position 9 and sound at
  position 5 is recovered (`DiagnosticOutcome.BackwardsIsRecovered`), and
  `DiagnosticOutcome.WhenRecoveredOnlyBehind` says exactly which recovered runs never get
  past their fault. The model follows the code.
- An oversized last line without newline is rejected but does not count against
  the record limit (`scripts/playback_diagnostic_summary.py:336-349`), unlike any other line (`JournalReader.Attempts`).
- The final `?? "clear"` in `mutateReservedSignal`
  (`frontend/hooks/useTrackPreference.ts:184`) is never reached: with neither intent nor
  cached preference the branch before it already returns the missing preference
  (`PreferenceLifetimes.ReservedResultSignal`).
- A session that has expired before polling begins arms a countdown for the expired
  run, which the cleanup of the resulting commit removes
  (`frontend/hooks/useDeviceAuthPolling.ts:274-299`, `DeviceAuthProofs.EnterPollingMeans`).
- The `max(0, ...)` in `left` never has anything to clamp
  (`scripts/ytmusic-playback-workload.py:138-140`, `EgressProbe.StepKeepsCounted`).
- Fourteen tracks are the least size at which the artist cap alone keeps a
  20-track mix under its thresholds (`Diversity.EnoughIsLeast`).

## Model

| member | source | states |
|---|---|---|
| TrackPreference.BeginKeepsInv | frontend/hooks/trackPreferenceOptimistic.ts:194-239 | Starting a mutation keeps every lane consistent: newest generation is the last handed out, `latestSettled` says whether it is in flight, identities are fresh |
| TrackPreference.LastOneOutIsSettled | frontend/hooks/trackPreferenceOptimistic.ts:263-273 | Settling a generation keeps `latestSettled` equivalent to the newest one having left, and a lane that empties is settled |
| TrackPreference.CompleteLanes | frontend/hooks/trackPreferenceOptimistic.ts:271-278 | An accepted completion changes one lane only, deletes it exactly when its last generation left, and leaves no empty client row |
| TrackPreference.CompleteKeepsInv | frontend/hooks/trackPreferenceOptimistic.ts:245-281 | Completing any context, accepted or not, keeps the lane invariant |
| TrackPreference.StepKeepsInv | frontend/hooks/useTrackPreference.ts:109-155 | Every callback, cache write, sign-out, tap and release keeps the invariant over all clients and tracks |
| TrackPreference.RunKeepsInv | frontend/hooks/trackPreferenceOptimistic.ts:194-293 | So does every sequence of such steps, stale and repeated callbacks included |
| TrackPreference.EveryRunIsOk | frontend/hooks/trackPreferenceOptimistic.ts:74-81 | From empty tables, every reachable state has the invariant |
| PreferenceRefinement.StepRefines | frontend/hooks/useTrackPreference.ts:109-155 | Seen from one client and track, each step of the lanes and cache is one action of the machine with a stable value and at most one pending ticket |
| PreferenceRefinement.FinishRefines | frontend/hooks/trackPreferenceOptimistic.ts:245-281 | An answer is the machine's answer: newest success becomes stable and shown, newest failure shows stable again, any other answer does nothing |
| PreferenceRefinement.RunRefines | frontend/hooks/trackPreferenceOptimistic.ts:187-281 | Every run of the lane machine is a run of the small machine |
| PreferenceRefinement.ShownIsNewestOrStable | frontend/hooks/trackPreferenceOptimistic.ts:187-193 | With nothing pending the cache shows the stable value; while something is, and no refetch lands, the newest optimistic value |
| PreferenceRefinement.PendingUntilAnswered | frontend/hooks/trackPreferenceOptimistic.ts:255-269 | With no newer start a mutation is pending exactly until its own answer or a sign-out |
| PreferenceRefinement.NewestAnswerWins | frontend/hooks/trackPreferenceOptimistic.ts:241-281 | Of the small machine: after any history, with older answers before and any answers after, the newest success is what is shown, the newest failure brings back the stable value |
| PreferenceRefinement.NewestMutationWins | frontend/hooks/useTrackPreference.ts:109-155 | The same over every run of the lane, intent and cache tables from empty ones, with any callbacks, taps, refetches and other tracks in between |
| PreferenceRefinement.FailedBurstRestores | frontend/hooks/trackPreferenceOptimistic.ts:190-193 | However many overlapping mutations fail, in whatever order, the cache returns to what it held before the first of them |
| PreferenceRefinement.SupersededAnswerIsInvisible | frontend/hooks/useTrackPreference.ts:124-145 | The answer to anything but the newest mutation changes no cache entry and no view of any client and track |
| PreferenceLifetimes.BeginIsAccepted | frontend/hooks/trackPreferenceOptimistic.ts:222-239 | A new context is accepted afterwards, was not before, and is not spent |
| PreferenceLifetimes.CompletedIsSpent | frontend/hooks/trackPreferenceOptimistic.ts:255-278 | A completed context can never be accepted by any lane again |
| PreferenceLifetimes.SignedOutIsSpent | frontend/hooks/trackPreferenceOptimistic.ts:283-293 | Nor can a context whose session was reset |
| PreferenceLifetimes.SpentIsInert | frontend/hooks/trackPreferenceOptimistic.ts:255-261 | Completing a spent context, from any client, returns "not latest" and changes nothing |
| PreferenceLifetimes.RunKeepsSpent | frontend/hooks/trackPreferenceOptimistic.ts:283-293 | Spent stays spent over every run, through deleted and recreated lanes that count from one again |
| PreferenceLifetimes.NoStaleCallback | frontend/hooks/trackPreferenceOptimistic.ts:283-293 | Once answered or signed out, a mutation's callbacks are inert for ever |
| PreferenceLifetimes.BeginAddsOne | frontend/hooks/trackPreferenceOptimistic.ts:222-226 | Starting a mutation puts exactly its own generation in flight, in its own lane |
| PreferenceLifetimes.CompleteRemovesOne | frontend/hooks/trackPreferenceOptimistic.ts:271-278 | Completing takes exactly that one out, and nothing if it was not in flight |
| PreferenceLifetimes.NoLaneWithoutMutation | frontend/hooks/trackPreferenceOptimistic.ts:273-278 | The lane table is empty exactly when no mutation awaits its answer |
| PreferenceLifetimes.UntouchedStaysSame | frontend/hooks/trackPreferenceOptimistic.ts:74-81 | A step on one client and track leaves lane, intent and cache of every other as they were |
| PreferenceLifetimes.StepFolds | frontend/hooks/trackPreferenceOptimistic.ts:105-118 | While an intent is held, a tap toggles its signal and no other step changes it |
| PreferenceLifetimes.TapsFold | frontend/hooks/trackPreferenceSignals.ts:6-19 | While the newest intent is kept, the reserved signal is the left fold of the toggles, whatever else happens in between |
| PreferenceLifetimes.FirstTapFolds | frontend/hooks/trackPreferenceOptimistic.ts:108-118 | The fold starts at the cached signal, or at "clear" |
| PreferenceLifetimes.BurstsAlternate | frontend/hooks/trackPreferenceSignals.ts:6-19 | A burst of likes, or of dislikes, alternates between on and clear by its length and what was there before |
| PreferenceLifetimes.ReleaseOnlyOwn | frontend/hooks/trackPreferenceOptimistic.ts:133-147 | Releasing an older intent changes nothing; releasing the newest removes it and only it |
| PreferenceLifetimes.ReservedResultSignal | frontend/hooks/useTrackPreference.ts:170-189 | A superseded caller gets the newest intent's signal, or the cached one; it gets no preference exactly when both are missing; the newest caller gets the cached signal or the response |
| PreferenceEffects.BeginShows | frontend/hooks/trackPreferenceOptimistic.ts:10-30 | After a start the cache holds, for its track, the signal asked for, liked or disliked exactly for thumbs up or down, and the score 1, -1 or 0; the context remembers what was shown before |
| PreferenceEffects.BeginLaunches | frontend/hooks/trackPreferenceOptimistic.ts:206-238 | The context is the next generation of the track's lane, newest and in flight; the rollback point moves to what was shown only for a new or settled lane |
| PreferenceEffects.CompleteMeans | frontend/hooks/trackPreferenceOptimistic.ts:245-281 | A context in flight is newest exactly if no later one was started, and the rollback point returned is the answer for a newest success, else the lane's; any other context has no verdict and no effect |
| PreferenceEffects.AnswersShow | frontend/hooks/useTrackPreference.ts:117-150 | An answer reaches the cache only for the newest generation in flight: a success as its data, a failure as the rollback point; without a context nothing changes |
| PreferenceEffects.MutatingNeedsATrack | frontend/hooks/useTrackPreference.ts:109-116 | No context and no effect exactly without a track; else a context that is accepted and the signal shown |
| PreferenceEffects.TapReserves | frontend/hooks/trackPreferenceOptimistic.ts:99-119 | A tap reserves the signal set, or the one toggled against the newest intent, else the cache, else "clear", under a fresh token, and touches neither lanes nor cache |
| PreferenceEffects.LettingGo | frontend/hooks/trackPreferenceOptimistic.ts:134-147 | Releasing removes the intent exactly if its token is still the newest, and changes nothing else |
| PreferenceEffects.SigningOut | frontend/hooks/trackPreferenceOptimistic.ts:288-293 | A reset leaves its client no lane and no intent, and other clients all of theirs |
| PreferenceEffects.ReservedResultMeans | frontend/hooks/useTrackPreference.ts:170-189 | The newest caller gets the response unless the cache shows another signal; a superseded one gets the cached preference if it has the newest signal, else an optimistic one for that signal, liked or disliked and scored accordingly |
| TrackPreferenceStore.MutationLane.StartGeneration | frontend/hooks/trackPreferenceOptimistic.ts:222-226 | In place: the next generation, newest and in flight, nothing else changed |
| TrackPreferenceStore.MutationLane.FinishGeneration | frontend/hooks/trackPreferenceOptimistic.ts:263-272 | In place: settles the lane if the generation is newest, moves the rollback point only on its success, and takes it out of flight |
| TrackPreferenceStore.PreferenceStore.ApplyOptimistic | frontend/hooks/trackPreferenceOptimistic.ts:164-185 | Returns the previous preference and caches one for the track with the signal asked for, liked exactly for thumbs up, disliked exactly for thumbs down, and score 1, -1 or 0 |
| TrackPreferenceStore.PreferenceStore.CreateLane | frontend/hooks/trackPreferenceOptimistic.ts:206-215 | A new lane under a fresh identity, settled, with the cache as its rollback point; other lanes stay |
| TrackPreferenceStore.PreferenceStore.Rebase | frontend/hooks/trackPreferenceOptimistic.ts:216-220 | A settled lane takes the cache as its rollback point and changes in nothing else |
| TrackPreferenceStore.PreferenceStore.OpenLane | frontend/hooks/trackPreferenceOptimistic.ts:200-220 | Creates the lane or re-bases a settled one on the cache; an unsettled lane keeps its rollback point |
| TrackPreferenceStore.PreferenceStore.ApplyOrdered | frontend/hooks/trackPreferenceOptimistic.ts:194-239 | The tables and the context after a start are those of the step `Begin`; the cache then holds the optimistic preference of that signal, and the context the previous one; other lanes keep their objects and values |
| TrackPreferenceStore.PreferenceStore.CompleteOrdered | frontend/hooks/trackPreferenceOptimistic.ts:245-281 | The tables and the verdict after a completion are those of the step `Complete` |
| TrackPreferenceStore.PreferenceStore.ResetOrdered | frontend/hooks/trackPreferenceOptimistic.ts:288-293 | Removes all lanes and intents of one client and no others |
| TrackPreferenceStore.PreferenceStore.ReserveIntent | frontend/hooks/trackPreferenceOptimistic.ts:99-119 | Reserves the toggled signal of the newest intent, else of the cache, else of "clear", under a fresh token |
| TrackPreferenceStore.PreferenceStore.ReleaseIntent | frontend/hooks/trackPreferenceOptimistic.ts:134-147 | Removes the intent only if its token is still the newest |
| TrackPreferenceStore.PreferenceStore.OnMutate | frontend/hooks/useTrackPreference.ts:109-116 | Starts an ordered mutation, and nothing without a track |
| TrackPreferenceStore.PreferenceStore.OnSuccess | frontend/hooks/useTrackPreference.ts:117-129 | Caches the answer only for the newest mutation |
| TrackPreferenceStore.PreferenceStore.OnError | frontend/hooks/useTrackPreference.ts:138-150 | Caches the rollback point only for the newest mutation |
| RouteMonitor.TrailingMeans | scripts/music_route_monitor.py:383-393 | The trailing-run length is maximal: everything in it has the value, the result before it does not |
| RouteMonitor.DownStep | scripts/music_route_monitor.py:383-398 | "Three failures in a row and never again two successes in a row" changes with one more result exactly at the two thresholds |
| RouteMonitor.CommitKeepsTracks | scripts/music_route_monitor.py:381-398 | After every recorded result the counters are the trailing run lengths and an incident is open exactly when the history is down |
| RouteMonitor.RecordRaises | scripts/music_route_monitor.py:386-398 | A recorded result queues one event exactly when it opens or closes the incident, with the incident's own id |
| RouteMonitor.CommitKeepsDelivers | scripts/music_route_monitor.py:386-399 | Recording keeps the event history alternating, the outbox its undelivered end, and the calls in order |
| RouteMonitor.AlternatesMeans | scripts/music_route_monitor.py:386-398 | The history is outage, recovery, outage, ... with one id per pair, and ends in an outage exactly when an incident is open |
| RouteMonitor.CommitKeepsEconomical | scripts/music_route_monitor.py:26-27 | Three runs per outage and two per recovery are used up, the counters being what is saved for the next event |
| RouteMonitor.CommitKeepsPaced | scripts/music_route_monitor.py:370-381 | Each completed run moves `last_checked` by at least the interval, also when the clock went backwards, hence all of them by their number of intervals |
| RouteMonitor.CommitKeepsDurable | scripts/music_route_monitor.py:337-399 | Loading, recording one result and saving it keeps file and ledger in agreement |
| RouteMonitor.LoadMeans | scripts/music_route_monitor.py:337-369 | No file starts from zero counters, no incident and an empty outbox; a stored state is taken as it is exactly if it has schema 1, this target and no negative counter; anything else is refused |
| RouteMonitor.RecordMeans | scripts/music_route_monitor.py:380-398 | One result, field by field: time, run and counters, the third failure in a row opening an incident and the second success in a row closing it, with the event each queues |
| RouteMonitor.SavedIsLoaded | scripts/music_route_monitor.py:337-369 | What the monitor saved, as long as file and ledger agree, it can load again unchanged; and what it has not saved yet it starts from zero |
| RouteMonitor.CallKeepsOrder | scripts/music_route_monitor.py:401-406 | Notifying the head of the outbox, again or for the first time, leaves calls that collapse to the events up to it |
| RouteMonitor.CallKeepsDelivers | scripts/music_route_monitor.py:401-408 | A notify call keeps the delivery invariant whether it succeeds or fails, with the pop saved or not |
| RouteMonitor.CallsFollowHistory | scripts/music_route_monitor.py:318-408 | At every moment the calls, adjacent repeats collapsed, are a prefix of the alternating history, and what left the outbox was delivered: nothing lost, reordered, or recovered before its outage |
| RouteMonitor.EventsBoundedByTime | scripts/music_route_monitor.py:95-102 | `3*outages + 2*recoveries <= runs`, and at the shortest allowed interval of 900 seconds the events are bounded linearly by elapsed time |
| RouteMonitorHost.SentKeepsDelivers | scripts/music_route_monitor.py:401-408 | However many deliveries were made and saved before the process was killed, order and outbox still agree |
| RouteMonitorHost.Host.Drain | scripts/music_route_monitor.py:400-408 | Delivers from the head until the first failure or the kill, saving after each; how many were called, made and saved follows from the answers and the number of actions, and the file holds the rest |
| RouteMonitorHost.DeliveredMeans | scripts/music_route_monitor.py:401-406 | The deliveries before the first failure: all of them succeed and the next one fails |
| RouteMonitorHost.RecordResult | scripts/music_route_monitor.py:380-398 | The statements of the source, in their order, amount to recording the result |
| RouteMonitorHost.RunsWhenDue | scripts/music_route_monitor.py:370-371 | A file of the monitor never makes it refuse, and it runs exactly if there is no file yet or the interval has passed since the last check |
| RouteMonitorHost.TurnKeepsDurable | scripts/music_route_monitor.py:335-412 | A tick cut short after any of its actions keeps file and ledger in agreement and takes nothing back |
| RouteMonitorHost.EveryScheduleIsTrue | scripts/music_route_monitor.py:335-412 | Over every schedule of ticks, each killed anywhere: the file is missing or can be loaded as it is, the counters are the trailing runs, an incident is open exactly when the history has three failures in a row and no two successes in a row after them, events alternate, calls without repeats follow them, and events are paid for by runs |
| RouteMonitorHost.Host.Tick | scripts/music_route_monitor.py:335-412 | On a file of the monitor a tick that is not killed first saves exactly if there was no file or the interval has passed; it then shows this time, one run more and the result, and agrees with the ledger. On any file one tick killed after any number of actions is a turn of such a schedule; what it reports, and how many deliveries were called, made and saved, follow from the answers and the number of actions |
| JournalReader.LineEnd | scripts/playback_diagnostic_summary.py:335 | A line ends at its first newline, or with the file |
| JournalReader.ReadLine | scripts/playback_diagnostic_summary.py:335 | A chunk is the start of what is left: at most the limit, a newline only at its end, not empty unless it must be, and shorter than the limit only at a newline or the end |
| JournalReader.LinesJoin | scripts/playback_diagnostic_summary.py:333-354 | Plain splitting loses and invents no byte |
| JournalReader.LinesAreLines | scripts/playback_diagnostic_summary.py:333-354 | Each line has no newline but at its end, and only the last may lack it |
| JournalReader.OneLineYields | scripts/playback_diagnostic_summary.py:336-354 | A line is a record if it has at most 8192 bytes and parses, else a rejection; only a longer one without newline uses up no attempt |
| JournalReader.ChunkOf | scripts/playback_diagnostic_summary.py:335-349 | A chunk ending in a newline or short of the limit ends its line; any other is a piece of it without newline |
| JournalReader.LastOversized | scripts/playback_diagnostic_summary.py:336-339 | An unterminated oversized rest is the one last line |
| JournalReader.ReadFile | scripts/playback_diagnostic_summary.py:332-354 | The chunked loop with its `oversized` flag takes exactly the plain lines before the first one that exceeds the byte limit or finds no record left, each parsed or rejected, and stops exactly if there is such a line |
| JournalReader.RefusedShift | scripts/playback_diagnostic_summary.py:334-343 | A line is refused while reading its file exactly if it is refused in the journal as a whole |
| JournalReader.ReadJournal | scripts/playback_diagnostic_summary.py:312-357 | With at most 64 files and no line refused: every line of every file is a record or a rejection, every file is read or reported unreadable, and all bytes are read; with more files, the same of the first 64 and one limit reported. In general records and rejections are those of the longest run of lines that fits both limits, the bytes read are those up to the refusal, the files read are those begun, and a limit is reported exactly if a line was refused |
| JournalReader.FewerLinesFewerRecords | scripts/playback_diagnostic_summary.py:341-343 | Taking fewer lines gives a prefix of the records and no more rejections |
| JournalReader.EveryLineCountsOnce | scripts/playback_diagnostic_summary.py:350-354 | Every physical line is parsed or rejected, exactly once |
| DiagnosticRecords.NamesRoundTrip | scripts/playback_diagnostic_summary.py:25-43 | An event kind and its journal name determine each other, and no other name is a kind |
| DiagnosticRecords.RanksFollowNames | scripts/playback_diagnostic_summary.py:186 | The order of kinds used for sorting is the string order of their names, for every pair |
| DiagnosticRecords.NormalizedIsBounded | scripts/playback_diagnostic_summary.py:99-130 | A normalized event has time and position in range, labels from the closed lists or "unknown", and identifiers of the agreed form only |
| DiagnosticRecords.FingerprintDecides | scripts/playback_diagnostic_summary.py:163-176 | What is hashed decides the normal form and the identity, and hashing it again changes nothing |
| DiagnosticRecords.RedeliveryKeepsFingerprint | scripts/playback_diagnostic_summary.py:161-168 | A copy with another receipt time is the same record exactly when owner, id and observation time are present |
| DiagnosticFields.NormalizeMeans | scripts/playback_diagnostic_summary.py:99-130 | Key by key: a record is accepted exactly if its event is a known name, its time (observed, or received if no observation time is given) is a number in range and its fields an object; owner, id, run, labels, position, playing and fatal are those of their keys |
| DiagnosticFields.KindsAreNamed | scripts/playback_diagnostic_summary.py:25-43 | The thirteen names accepted, and the five of them that are issues |
| DiagnosticFields.FingerprintMeans | scripts/playback_diagnostic_summary.py:161-171 | Two records have the same content exactly if they agree on every key, but for the receipt time of an event with owner, id and observation time |
| DiagnosticFields.IdentityMeans | scripts/playback_diagnostic_summary.py:172-176 | Two records with owner and id are one event exactly if they agree on both; any other records are one event only if they are equal |
| DiagnosticConflicts.QuarantineMeans | scripts/playback_diagnostic_summary.py:177-183 | Quarantined are exactly the owners and ids that come with two different contents |
| DiagnosticConflicts.QuarantineCount | scripts/playback_diagnostic_summary.py:184 | They are counted once each |
| DiagnosticConflicts.SurvivorsAreListedEvents | scripts/playback_diagnostic_summary.py:185 | An event is left exactly if some record reads as it and no record contradicts that one |
| DiagnosticConflicts.NothingLeftInDoubt | scripts/playback_diagnostic_summary.py:142-144 | Of an owner and id with two contents no event is left at all |
| DiagnosticDeliveries.First | scripts/playback_diagnostic_summary.py:177-183 | The first delivery of an identity: it brings the identity and none before it does |
| DiagnosticDeliveries.OneContent | scripts/playback_diagnostic_summary.py:177-185 | All copies of an unquarantined identity have the content of its first delivery |
| DiagnosticDeliveries.SurvivorsAreListed | scripts/playback_diagnostic_summary.py:184-185 | The surviving first deliveries are exactly the contents whose identity is not in quarantine, each once |
| DiagnosticDeliveries.SurvivorsInOrder | scripts/playback_diagnostic_summary.py:185 | They are listed in order of first delivery |
| DiagnosticDeliveries.RedeliveryKeepsPrint | scripts/playback_diagnostic_summary.py:161-168 | A copy that differs at most in a receipt time that does not count has the same content |
| DiagnosticDeliveries.SameRecordsSamePrints | scripts/playback_diagnostic_summary.py:156-183 | A permutation of the input has the same distinct contents |
| DiagnosticDeliveries.RedeliveriesAddNothing | scripts/playback_diagnostic_summary.py:161-168 | Appended copies, with another receipt time too where it does not count, add no content |
| DiagnosticDeliveries.SameDelivery | scripts/playback_diagnostic_summary.py:156-183 | Any order of the records and such copies has the contents of the records |
| DiagnosticDeliveries.SameListSameEvents | scripts/playback_diagnostic_summary.py:185 | Two listings of the same survivors hold the same events equally often |
| DiagnosticDeliveries.DeliveryOrderDoesNotMatter | scripts/playback_diagnostic_summary.py:142-144 | Two deliveries of the same contents quarantine the same identities and keep the same events |
| DiagnosticDedup.PassEnds | scripts/playback_diagnostic_summary.py:184-185 | At the end of the pass what is available is what is remembered of identities out of conflict, and the conflicts are the quarantined identities |
| DiagnosticDedup.KeptAreSurvivors | scripts/playback_diagnostic_summary.py:177-185 | Remembering the first delivery of each identity and dropping the conflicts lists the survivors in order of first delivery |
| DiagnosticDedup.Deduplicate | scripts/playback_diagnostic_summary.py:154-185 | One pass yields the survivors in order of first delivery: the events that some record brings and none contradicts. Rejected are the invalid records, duplicates the later copies with the content of the first, conflicting the owners and ids with two contents; with the mismatching copies these are all records |
| DiagnosticOutcome.LatestFault | scripts/playback_diagnostic_summary.py:225-226 | The fault a signal is compared with is the newest one before it |
| DiagnosticOutcome.NotBoth | scripts/playback_diagnostic_summary.py:222-247 | No run meets both the recovered and the failed rule |
| DiagnosticOutcome.RuleAfterFault | scripts/playback_diagnostic_summary.py:225-231 | A fault undoes recovery, keeps failure, and fails the run if it is fatal |
| DiagnosticOutcome.RuleAfterOther | scripts/playback_diagnostic_summary.py:232-247 | Any other event changes the outcome only by being recovery evidence |
| DiagnosticOutcome.Classify | scripts/playback_diagnostic_summary.py:222-247 | The fold is the rule: recovered iff some evidence has no fault after it, else failed iff a fatal error has no evidence after it, else unresolved |
| DiagnosticOutcome.EvidenceMeans | scripts/playback_diagnostic_summary.py:232-247 | Evidence is a resumption above zero, or a heartbeat more than 0.05 past the newest fault, after it, later than it and with the engine playing |
| DiagnosticOutcome.WhenDecided | scripts/playback_diagnostic_summary.py:222-247 | Recovered exactly if evidence is newer than the last fault; failed exactly if some fatal playback error has no evidence after it |
| DiagnosticOutcome.WhenRecoveredOnlyBehind | scripts/playback_diagnostic_summary.py:232-247 | A recovered run has no evidence beyond its last fault's position exactly if what resumed after it did so at or behind that position, or the position is unknown, and no heartbeat got past it |
| DiagnosticOutcome.BackwardsIsRecovered | scripts/playback_diagnostic_summary.py:235-239 | Such a run: a rebuffer at position 9, sound again at position 5 |
| DiagnosticOrder.SortSorts | scripts/playback_diagnostic_summary.py:186 | Sorting orders by time, then name, and keeps every event |
| DiagnosticOrder.BeforeMeans | scripts/playback_diagnostic_summary.py:186 | The sort key is the time, then the string order of the names |
| DiagnosticOrder.SortIsStable | scripts/playback_diagnostic_summary.py:186 | Events that share time and name stay in the order they came in |
| DiagnosticOrder.RunEventsMean | scripts/playback_diagnostic_summary.py:188-212 | A run has exactly the events of its owner and run in the window, both ends included, as often as they are available, in order |
| DiagnosticOrder.SortedIsUnique | scripts/playback_diagnostic_summary.py:186 | Without ties there is one sorted order |
| DiagnosticOrder.OutcomeIgnoresDelivery | scripts/playback_diagnostic_summary.py:186-247 | A run whose events have no ties gets the same events in the same order, hence the same outcome, from any delivery |
| DiagnosticTies.RecoveredBy | scripts/playback_diagnostic_summary.py:224-247 | In any sorted order a run is recovered exactly if the last member of its last class of faults is recovered from |
| DiagnosticTies.FailedBy | scripts/playback_diagnostic_summary.py:224-247 | It has a fatal error that counts exactly if no last member of a class is recovered from, from some fatal error on |
| DiagnosticTies.DifferenceMatters | scripts/playback_diagnostic_summary.py:186-247 | If two sorted orders of the same events end differently, the order-free condition holds |
| DiagnosticTies.ExtremesDiffer | scripts/playback_diagnostic_summary.py:186-247 | The order with the recoverable members last and the one with them first end differently exactly under that condition |
| DiagnosticDeliveryOrder.GoodAreListedLast | scripts/playback_diagnostic_summary.py:154-186 | Delivering the records of certain events last lists those events last |
| DiagnosticDeliveryOrder.WhenDeliveryDecides | scripts/playback_diagnostic_summary.py:154-247 | Some reordering of the same records gives a run another outcome if and only if the run's own events meet the condition on open classes |
| DiagnosticDeliveryOrder.NoOrderMatters | scripts/playback_diagnostic_summary.py:154-247 | Otherwise every delivery of the same contents, copies included, gives the run the same outcome |
| DiagnosticDeliveryOrder.HarmlessTies | scripts/playback_diagnostic_summary.py:154-247 | Ties without two faults at different positions never decide an outcome |
| DiagnosticDeliveryOrder.TiesAreVisible | scripts/playback_diagnostic_summary.py:154-247 | Two deliveries of the same three records, one with outcome recovered and one unresolved |
| DiagnosticReport.IssuesAddUp | scripts/playback_diagnostic_summary.py:207-214 | Issue events are those of known runs and the unlinked ones, and the sum over the five issue kinds |
| DiagnosticReport.GroupedNext | scripts/playback_diagnostic_summary.py:211-212 | Each group is the selected events of its owner and run, in order |
| DiagnosticReport.Group | scripts/playback_diagnostic_summary.py:203-214 | Every counter counts what it names and every group holds its run's events |
| DiagnosticReport.CountsNext | scripts/playback_diagnostic_summary.py:219-264 | One more affected run raises one outcome, one bucket cell and one hour, all its own |
| DiagnosticReport.AddUpNext | scripts/playback_diagnostic_summary.py:261-264 | Outcomes, breakdown and hours go on adding up to the number of affected runs |
| DiagnosticReport.LastKnownMeans | scripts/playback_diagnostic_summary.py:255-260 | The category is the last one known among the faults, "unknown" only if none is |
| DiagnosticReport.FiledBy | scripts/playback_diagnostic_summary.py:248-264 | A run is filed by its first fault's source and platform, by startup, continuation or unknown as that fault's position is zero, other or missing, by its last known category, and in the hour of that fault |
| DiagnosticReport.CountRuns | scripts/playback_diagnostic_summary.py:215-264 | Every cell is the number of affected runs it stands for, and the three totals agree |
| DiagnosticSummary.AffectedAreFaultyRuns | scripts/playback_diagnostic_summary.py:218-221 | The groups counted are exactly the owner and run pairs with a fault |
| DiagnosticSummary.GroupsAreThose | scripts/playback_diagnostic_summary.py:203-212 | The groups are, for each owner and run with an event, its events in order |
| DiagnosticSummary.SelectedMeans | scripts/playback_diagnostic_summary.py:187-188 | Selected are exactly the events of the last `hours` hours, both ends included, sorted |
| DiagnosticSummary.Summarize | scripts/playback_diagnostic_summary.py:133-294 | Every count of the report is that of the records it stands for: rejected, duplicates, quarantined, outside, selected, issues, runs by outcome, bucket and hour; they conserve the input, and the report is partial exactly if something was rejected, unread, cut off or in conflict |
| DiagnosticSummary.ReportsIgnoreDelivery | scripts/playback_diagnostic_summary.py:154-264 | Two deliveries of the same contents give reports with the same event counts, affected runs and hours; the same outcomes unless the order of tied events decides one; and the same breakdown if no run has ties |
| DiagnosticSummary.RedeliveryKeepsReport | scripts/playback_diagnostic_summary.py:154-264 | So do the records and the same records in another order with any copies, with another receipt time too where it does not count |
| DeviceAuthProofs.MountedInv | frontend/hooks/useDeviceAuthPolling.ts:95-102 | A hook just mounted is idle, shows nothing and has nothing outstanding, and has the invariant |
| DeviceAuthProofs.InvalidateClears | frontend/hooks/useDeviceAuthPolling.ts:108-112 | Invalidation leaves no active timer at all and a new generation |
| DeviceAuthProofs.StartKeepsInv | frontend/hooks/useDeviceAuthPolling.ts:114-175 | Starting, cancelling and unmounting keep the hook's invariant from any state |
| DeviceAuthProofs.EnterPollingMeans | frontend/hooks/useDeviceAuthPolling.ts:203-299 | Both effects of entering polling arm poll and countdown and show the time left, or end the run at once if less than a second is left |
| DeviceAuthProofs.InitiatedKeepsInv | frontend/hooks/useDeviceAuthPolling.ts:129-141 | A session, current or stale, with or without `onSessionStarted` throwing, keeps the invariant |
| DeviceAuthProofs.PollAnsweredKeepsInv | frontend/hooks/useDeviceAuthPolling.ts:208-235 | So does every poll answer or rejection, current or stale |
| DeviceAuthProofs.CountdownKeepsInv | frontend/hooks/useDeviceAuthPolling.ts:280-298 | So does every tick, whether it counts down or expires the run |
| DeviceAuthProofs.FireKeepsInv | frontend/hooks/useDeviceAuthPolling.ts:221-298 | So does any timer that fires |
| DeviceAuthProofs.StepKeepsInv | frontend/hooks/useDeviceAuthPolling.ts:82-178 | Every enabled event keeps: timers known to the store, nothing outstanding of the future, a live run ticking, endings once per run |
| DeviceAuthEffects.PollDecides | frontend/hooks/useDeviceAuthPolling.ts:213-235 | The answer to a poll of the current run: authorized ends it in success with one more `onSuccess`, denied in an error with the message given and no such call; a pending or failed poll leaves all that is shown and is due again after `max(1, pollIntervalMs)` |
| DeviceAuthEffects.SessionDecides | frontend/hooks/useDeviceAuthPolling.ts:129-133 | A session for the awaited run: polled and counted down with at least a second left, expired at once with less, not started if `onSessionStarted` throws; for another run or after unmounting only the wait ends |
| DeviceAuthEffects.StartErrorDecides | frontend/hooks/useDeviceAuthPolling.ts:134-141 | A failed initiation of the awaited run is shown with its message and ends the run; of another run it changes nothing |
| DeviceAuthEffects.PollTimerDecides | frontend/hooks/useDeviceAuthPolling.ts:221-226 | A poll timer that fires is gone, its poll is awaited, and nothing shown changes |
| DeviceAuthEffects.CountdownDecides | frontend/hooks/useDeviceAuthPolling.ts:280-298 | A tick shows the whole seconds left and is due again a second later; with less than one second left it ends the run with "Device code expired" |
| DeviceAuthEffects.StartDecides | frontend/hooks/useDeviceAuthPolling.ts:122-128 | A start shows loading and nothing else, awaits its session, and leaves no timer |
| DeviceAuthEffects.CancelDecides | frontend/hooks/useDeviceAuthPolling.ts:114-120 | A cancellation shows idle and nothing else, and leaves no timer |
| DeviceAuthEffects.UnmountDecides | frontend/hooks/useDeviceAuthPolling.ts:167-175 | Unmounting leaves no timer and what is shown as it was |
| DeviceAuthRuns.RunKeepsInv | frontend/hooks/useDeviceAuthPolling.ts:82-178 | So does every interleaving |
| DeviceAuthRuns.SupersededResultsAreIgnored | frontend/hooks/useDeviceAuthPolling.ts:129-136 | After a start, cancel or unmount, results of an earlier run change no phase, session, error, time left, timer or count, whenever they come |
| DeviceAuthRuns.TimersAreOfTheLiveRun | frontend/hooks/useDeviceAuthPolling.ts:70-81 | Every active timer belongs to the run that polls now |
| DeviceAuthRuns.OnePollInHand | frontend/hooks/useDeviceAuthPolling.ts:210-234 | A live run has exactly one armed poll timer or unanswered poll, never both; without one there is neither |
| DeviceAuthRuns.StepProceeds | frontend/hooks/useDeviceAuthPolling.ts:122-142 | A step keeps the current run going, ends it, or starts one; it never revives another |
| DeviceAuthRuns.EachStartEndsOnce | frontend/hooks/useDeviceAuthPolling.ts:213-221 | Over every run of the hook: endings belong to starts, no start has two, a live run has none, and `onSuccess` was called once per run that ended in success |
| DeviceAuthRuns.ShownStateIsTrue | frontend/hooks/useDeviceAuthPolling.ts:95-98 | An error is shown exactly in the error phase, a time left exactly while polling, and success or error tells how the last ended run ended |
| DeviceAuthRuns.ShownIsTrueFromMount | frontend/hooks/useDeviceAuthPolling.ts:92-178 | That, and the invariant, hold in every state reachable from mounting |
| DeviceAuthRuns.FreshAttempt | frontend/hooks/useDeviceAuthPolling.ts:114-127 | A start shows only that it is loading, a cancellation shows nothing; neither leaves a timer or a poll that could still count |
| DeviceAuthRuns.IdealRunKeepsTimed | frontend/hooks/useDeviceAuthPolling.ts:207-298 | With ideal ticks the next tick is at most a second away and not after expiry, the time left was right at the last tick, and polls are a delay apart |
| DeviceAuthRuns.PollsAreBounded | frontend/hooks/useDeviceAuthPolling.ts:207-235 | With ideal ticks no run polls past its expiry, and its polls number at most its duration over `max(1, pollIntervalMs)`, whatever they answer or throw |
| DeviceAuthRuns.CountdownStrictlyDecreases | frontend/hooks/useDeviceAuthPolling.ts:280-298 | Each ideal tick takes one second off; the tick that finds less than one left expires the run |
| DeviceAuthHook.TimerStore.SchedulePoll | frontend/hooks/useDeviceAuthPolling.ts:70-73 | In place: the old poll timer is cleared, the new one is active and held |
| DeviceAuthHook.TimerStore.ScheduleCountdown | frontend/hooks/useDeviceAuthPolling.ts:74-77 | The same for the countdown |
| DeviceAuthHook.TimerStore.ClearAll | frontend/hooks/useDeviceAuthPolling.ts:59-83 | In place: both timers are cleared and forgotten |
| DeviceAuthHook.HookInstance.Start | frontend/hooks/useDeviceAuthPolling.ts:122-129 | The fields after a start, up to the awaited initiation, are those of the step `Start`, and the hook's invariant holds of them |
| DeviceAuthHook.HookInstance.Initiated | frontend/hooks/useDeviceAuthPolling.ts:129-141 | The continuation of a start, with the effects it causes, is the step `Initiated` and keeps the invariant |
| DeviceAuthHook.HookInstance.InitiateFailed | frontend/hooks/useDeviceAuthPolling.ts:134-141 | The failed continuation is the step `InitiateFailed` and keeps the invariant |
| DeviceAuthHook.HookInstance.Cancel | frontend/hooks/useDeviceAuthPolling.ts:114-120 | Cancelling is the step `Cancel` and keeps the invariant |
| DeviceAuthHook.HookInstance.Unmount | frontend/hooks/useDeviceAuthPolling.ts:167-175 | Unmounting is the step `Unmount` and keeps the invariant |
| DeviceAuthHook.HookInstance.EnterPolling | frontend/hooks/useDeviceAuthPolling.ts:203-299 | The two effects in their order, with the cleanup of an immediate expiry, are the step `EnterPolling` |
| DeviceAuthHook.HookInstance.Tick | frontend/hooks/useDeviceAuthPolling.ts:280-297 | The countdown callback, statement by statement, is the step `Tick` |
| DeviceAuthHook.HookInstance.PollAnswered | frontend/hooks/useDeviceAuthPolling.ts:226-235 | The continuation of a poll, by its answer: success with one more `onSuccess` call and a won run, the error with the refusal's message and a refused run, or the next poll due after `max(1, pollIntervalMs)`; a stale answer changes nothing shown. It is the step `PollAnswered` and keeps the invariant |
| DeviceAuthHook.HookInstance.Finish | frontend/hooks/useDeviceAuthPolling.ts:213-221 | Ending a run by an answer: a denial shows the error and its message, an authorization success with one more `onSuccess` call; each ends the run once, in a new generation without timers. It is the step `Finish` |
| DeviceAuthHook.HookInstance.Fire | frontend/hooks/useDeviceAuthPolling.ts:222-226 | A firing timer, poll or countdown, is the step `Fire` and keeps the invariant |
| EgressProbe.SplitIsWhole | scripts/ytmusic-playback-workload.py:211-228 | First chunk and rest together are, to a client, the message they stand for |
| EgressProbe.SendDecides | scripts/ytmusic-playback-workload.py:198-230 | A message that brings the first media byte of a 200 or 206 is cut to its first `first_chunk_bytes` bytes, as an unfinished body; any other is passed on as it is |
| EgressProbe.ReleaseDecides | scripts/ytmusic-playback-workload.py:222-228 | After the release the other bytes follow with the message's own end, and nothing at all if there are none and more will come |
| EgressProbe.EventDecides | scripts/ytmusic-playback-workload.py:186-230 | Each event concerns one response: opened with nothing sent, waiting once its first chunk is through, broken when the send or the wait raises; no other response changes |
| EgressProbe.ReceiveKeepsFaithful | scripts/ytmusic-playback-workload.py:198-230 | Each message keeps: what was passed on, plus what is still owed, is the stream received |
| EgressProbe.StreamsArePreserved | scripts/ytmusic-playback-workload.py:186-232 | Over every interleaving of responses, a response that is not waiting has sent the same statuses, bytes and end of body as the application |
| EgressProbe.HeldAfterTheFirstBytes | scripts/ytmusic-playback-workload.py:204-218 | A response joins exactly when a 200 or 206 carries a byte, and while held its client has exactly the first `first_chunk_bytes` bytes of the held message, or all if it has fewer, and not its end |
| EgressProbe.HeldUntilReleased | scripts/ytmusic-playback-workload.py:215-220 | Until the release no response that got a media byte through moves on, unless something raised |
| EgressProbe.StepKeepsCounted | scripts/ytmusic-playback-workload.py:130-140 | `active` stays the number of held responses, and is positive whenever one leaves, so the clamp is idle |
| EgressProbe.CountersAreTrue | scripts/ytmusic-playback-workload.py:130-140 | `active` is joined minus left, `peak_active` the most ever held at once, and no response joins twice |
| EgressAdapter.EgressGeneration.Joined | scripts/ytmusic-playback-workload.py:130-136 | The counters after a join are those of the step `Joined` and stay true of the responses held |
| EgressAdapter.EgressGeneration.Left | scripts/ytmusic-playback-workload.py:138-140 | Whoever leaves was held, so `active` goes down by exactly one and the counters stay true |
| EgressAdapter.Backpressure.Send | scripts/ytmusic-playback-workload.py:198-230 | The wrapper up to its first await is the step `Receive`; what was passed on and what is owed stay what was received |
| EgressAdapter.Backpressure.Hold | scripts/ytmusic-playback-workload.py:215-218 | The first chunk sent, the response joins and waits |
| EgressAdapter.Backpressure.Resume | scripts/ytmusic-playback-workload.py:218-228 | Released, it leaves and passes on the rest, if there is one; nothing is owed then |
| EgressAdapter.Backpressure.Raise | scripts/ytmusic-playback-workload.py:215-220 | When a send or the wait raises, whoever had joined leaves |
| ScrollMemory.LastVisitsAppend | frontend/hooks/useMainScrollRestoration.ts:41-43 | A new visit makes its route the most recent and forgets its earlier visits |
| ScrollMemory.RememberIsNewest | frontend/hooks/useMainScrollRestoration.ts:40-47 | The bounded update of the bounded map is the unbounded update, cut to the newest 50 |
| ScrollMemory.HoldsTheNewest | frontend/hooks/useMainScrollRestoration.ts:36-47 | After any accepted scroll events the map holds the last visits of the 50 most recently scrolled routes, in order |
| ScrollMemory.RestoresLatest | frontend/hooks/useMainScrollRestoration.ts:62-67 | Looking a route up gives its latest offset exactly if fewer than 50 other routes were scrolled since |
| ScrollMemory.NeverVisited | frontend/hooks/useMainScrollRestoration.ts:62-67 | A route never scrolled has no offset |
| ScrollMemory.Positions.OnScroll | frontend/hooks/useMainScrollRestoration.ts:36-47 | The listener ignores events while restoring or for another location, and else applies one update in place |
| PlanChain.OneFateOnly | scripts/awm-feature-plan-validate.py:103-111 | A parent path ends at a root, or at a plan that cannot be fetched, or revisits a plan: one of the three |
| PlanChain.ChainIsUnique | scripts/awm-feature-plan-validate.py:99-112 | A plan has at most one root-first, linked, duplicate-free chain |
| PlanChain.BuildChain | scripts/awm-feature-plan-validate.py:99-112 | Terminates on every store; returns that chain iff the path reaches a parentless plan, the cycle error iff the path revisits a plan, and the fetch error iff it needs one that is missing |
| Diversity.CauchySchwarz | backend/scripts/measure-playlist-diversity-baseline.ts:914-927 | The square of the playlist size is at most artists times squared counts |
| Diversity.CountArtists | backend/scripts/measure-playlist-diversity-baseline.ts:904-912 | The counting loop gives every artist its number of tracks, which add up to the playlist |
| Diversity.Most | backend/scripts/measure-playlist-diversity-baseline.ts:914-916 | The largest count, zero for an empty playlist |
| Diversity.Concentration | backend/scripts/measure-playlist-diversity-baseline.ts:921-927 | The loop's index times the squared size is the sum of squared counts |
| Diversity.OverCapCounts | backend/scripts/measure-playlist-diversity-baseline.ts:928-930 | Cap violations are the artists with more than two tracks |
| Diversity.Measure | backend/scripts/measure-playlist-diversity-baseline.ts:900-930 | The metrics are those of the true artist counts |
| Diversity.IndexIsBetween | backend/scripts/measure-playlist-diversity-baseline.ts:914-927 | For a playlist that is not empty: `1/artists <= HHI <= maxArtistShare <= 1` |
| Diversity.CapBoundsBoth | backend/scripts/measure-playlist-diversity-baseline.ts:914-930 | Without cap violations both are at most `2/size` |
| Diversity.RunMetric.Evaluate | backend/scripts/measure-playlist-diversity-baseline.ts:683-715 | Appends the failed reasons to those already there |
| Diversity.FailuresMean | backend/scripts/measure-playlist-diversity-baseline.ts:683-715 | Each reason is given exactly if its bound is broken (0.2, 0.6 and 0.22 up to a target of 10, else 0.15, 0.55 and 0.18; the largest discography missing from a playlist at least half filled), once, in the order of the checks |
| Diversity.CapKeepersFailOtherwise | backend/scripts/measure-playlist-diversity-baseline.ts:683-715 | A run without cap violations and with at least 14 tracks (10 for small targets) fails exactly if the unique-artist ratio is too low or the largest discography is shut out, and for no other reason |
| Diversity.EnoughIsLeast | backend/scripts/measure-playlist-diversity-baseline.ts:271-286 | With an artist at the cap the share threshold fails exactly below that size |

## Left out

- React rendering, Strict Mode remounts, several state changes batched into one commit, and callbacks that call the hook again while it runs; effects run together with the change that triggers them.
- TanStack Query itself: retries, cancellation, mutation scopes and invalidation. Cache writes by anyone are steps that may come at any time; only `ShownIsNewestOrStable` asks that none comes while an answer is outstanding, which the source's `cancelQueries` is for.
- Toasts, telemetry, offline publishing, playback, and the timestamps of an optimistic preference.
- The answered track id where a context has no query key (`frontend/hooks/useTrackPreference.ts:126-128`): contexts always carry theirs.
- TrackPreferenceStore.PreferenceStore.ApplyOrdered: lanes live in one map keyed by client and track, so the nested weak maps are not modelled as objects; their empty rows are, in the step functions.
- HTTP, Docker, tokens and signals of the monitor: the probe's code, the drawn incident id, the answers of notify and the moment of a kill are parameters. Saving replaces the file atomically.
- JSON encoding of the monitor's state, its 65536-byte limit and the UUID and kind checks of a loaded file: a file is absent, unusable, or a state. The target's fingerprint stands for the configuration.
- RouteMonitorHost.Host.Tick: clock values are whole seconds and not negative.
- The SHA-256 digest: it stands for what is hashed, so collisions are not modelled, nor the collision of a user named `exact` whose event id is another record's digest, nor the JSON canonicalisation of equal numbers.
- Directory scanning and its entry limit, symbolic links, and an `OSError` in the middle of a file; a file is unreadable or its bytes.
- JSON parsing is a function from a line to an optional record; invalid Unicode and recursion limits are among its failures.
- Rounding: times, positions and metrics are integers or reals.
- `_utc` and Markdown formatting, and the earliest and latest event of the report's coverage.
- DiagnosticSummary.Summarize: its hourly counts are keyed by the number of the hour instead of the formatted hour.
- DeviceAuthHook.Browser.SetTimer: what `setTimeout` hands out is a number that never repeats, clearing a timer that is gone does nothing, and an interval is due again one second after it was due.
- DeviceAuthHook.HookInstance.Initiated: a start is answered once, and so is a poll, as promises are.
- EgressAdapter.Backpressure.constructor: each response of a generation has an id of its own.
- DeviceAuthRuns.PollsAreBounded: assumes that the countdown fires whenever a second is due; a suspended page can poll late but no more often.
- The caller's own expiry and start messages: the expiry message is the default one, the others are parameters.
- `onSuccess` and `onSessionStarted` are counted or may throw; what else they do is not modelled.
- The probe's `begin` guard on an unreleased generation, its per-video timings and its routing by path; a generation's responses are those it holds.
- EgressAdapter.Backpressure.Send: message fields other than type, status, body and `more_body` are not modelled.
- Scroll restoration itself (animation frames, deadlines, history events): only the map and its lookup.
- Fetching plans: the store of parent keys is fixed during a walk and holds the plan the walk starts from, keys are trimmed, and every way a fetch fails is one error. The other plan validators are single-branch facts.
- The generators, the mapping from tracks to artists, quantiles, aggregation and the report of the diversity script.
- Everything else in the repository: configuration, servers, proxies, UI components, benchmarks and smoke scripts.
