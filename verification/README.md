# Verified model of gozillo's capture, enrichment and discovery cores

This project models, in Dafny, the parts of gozillo whose correctness depends on
state carried across events, workers, pages or passes, and proves what they keep
over whole runs.

- **The CDP recorder** (`RecorderModel`, `RecorderRuns`, `RecorderLaws`,
  `RecorderAnnouncements`, `RecorderBodies`, `RecorderCutoff`, `RecorderOrder`,
  `RecorderBudget`, `RecorderOrphans`). One event in, one state and the body
  fetches it makes ready out. `RecorderLaws` says what each event leaves of every
  field, in its own terms; the other theorems quantify over every sequence of
  calls. `Lanes` holds the attachment rules, which
  request extras and response extras share. `RequestChains` and `Recorder` are
  the same recorder as objects that are updated in place and shared between the
  chains and the archive list; each method is proved to compute the model on
  their values. `Recording` is that object from the first call to the last: its
  fields are the model's run of the calls made.
- **Freeze, replay and the task queue** (`Capture`, `CaptureAnswers`,
  `Coordinator`). A step system
  in which one region of the recorder's lock or one queue operation is one step,
  so that workers may move between any two of them, also during the replay; and
  the mutex-protected routines as methods that take its steps.
- **The detail enricher** (`Enrichment`, `EnrichmentPauses`, `RecencyFates`,
  `DetailEnricher`, `Pacing`, `Filters`, `FilterLaws`). A pool of workers with a
  shared pause and a cache, under every interleaving and any clock; which URLs a
  sequential pass skips; the pacing of fetch starts; the filters before and after.
- **Discovery and its plan** (`Retry`, `Discovery`, `DiscoveryListings`, `Plan`).
  The page loops against an arbitrary server, which listings they return, and the
  estimate that the command line prints.
- **Text cores** (`Money`, `MoneyLaws`, `Percent`, `Sanitize`, `SanitizeLaws`,
  `Pieces`, `Text`) and **rental history** (`History`).

Conventions: instants and durations are unbounded integers, but for the 64-bit
backoff of `Retry`, and 0 is the zero time; clock readings, server answers and the
caller's cancellation come as arbitrary inputs. Headers, texts and bodies are
opaque and carry their measured sizes. Text is a sequence of Unicode characters,
except in `Percent` and `Sanitize`, which work on bytes. An interleaving is a list
of steps of which those not possible are skipped, so a theorem about all lists is
one about all interleavings.

Where the code departs from what it may be taken to promise, the model follows
the code and the exact condition is proved:

- The plan misses pages that validation fills in when no routes or no limits are
  given (`PlanExact`, `PlanFallsShort`); the command's own builder never produces
  such options.
- Listings without ID, URL and address are known by route, page and position, and
  a route whose name reads like the text of an ID, URL or address can lose one
  (`FirstsIffNeverPasses`, `IdPasses`); the command's routes never do
  (`CommandKeepsListings`).
- A redaction marker that contains `=` may make path rewriting unstable
  (`MarkerWithoutEquals`, and `StableIffMarkerStays` for given rules); validation
  of the marker rejects `/`, `;` and control characters only.
- The price history is put in order by an unstable sort, and what is reported
  depends on that order exactly when the latest listing and the latest reset
  share a date (`OrderMattersIffTied`, `TieExample`).
- The clamp of the parked-extras counter, the second pause check of the
  sequential pass, and the rejection of a scanned token are unreachable.

## Model

| member | source | states |
|---|---|---|
| `Lanes.FillConserves` | internal/cdphar/recorder.go:461-492 | One reconcile pass loses, duplicates and reorders nothing: attached extras in hop order followed by the queue are the same sequence before and after |
| `Lanes.FillSettles` | internal/cdphar/recorder.go:461-492 | After a pass nothing queued can still be attached, and the ordering rules of the lane hold |
| `Lanes.SettledIffFixpoint` | internal/cdphar/recorder.go:461-492 | A lane is settled if and only if another pass would change nothing |
| `Lanes.FillFromAttaches` | internal/cdphar/recorder.go:469-475 | The loop gives the oldest queued extra to the first hop that expects one and lacks it |
| `Lanes.FillFromStops` | internal/cdphar/recorder.go:463-472 | The loop stops at a hop whose expectation is unknown, or whose extra has not come |
| `RecorderRuns.ExtrasConserved` | internal/cdphar/recorder.go:351-529 | In every reachable state and for each request ID, the accepted request extras in arrival order are those attached in hop order, then the pending queue, then the frozen queue; likewise the response extras; and the chain invariant holds |
| `RecorderRuns.ReconcileChangesNothing` | internal/cdphar/recorder.go:646-650 | At every event boundary each chain is at the reconcile fixpoint, so every finalizing pass is a no-op |
| `RecorderRuns.HopsFillInOrder` | internal/cdphar/recorder.go:256-288 | Only the newest hop may not know its expectation, and no hop holds an extra while an earlier expecting hop lacks it |
| `RecorderRuns.DoAt` | internal/cdphar/recorder.go:139-233 | What each call may do to the extras of one ID: it adds exactly those it accepts and keeps the invariant of that ID |
| `RecorderRuns.ReconcileOk` | internal/cdphar/recorder.go:461-492 | Reconciling both lanes of a chain keeps their contents and restores the chain invariant |
| `RecorderRuns.AppendHopAt` | internal/cdphar/recorder.go:289-341 | Opening a hop keeps the extras of its ID and the chain invariant, since the new hop is the only unknown one |
| `RecorderRuns.CloseRedirectAt` | internal/cdphar/recorder.go:264-287 | Closing a redirected hop keeps the extras and settles its expectation |
| `RecorderRuns.AdoptAt` | internal/cdphar/recorder.go:245-255 | Extras parked for an ID join its chain in order, once |
| `RecorderLaws.ResponseLaw` | internal/cdphar/recorder.go:378-401 | An admitted response is recorded on the newest hop of its ID, field by field: it then expects extra info if and only if the event announces it; nothing else changes but deliveries and the budget, and a refused one leaves only the first limit it breaks |
| `RecorderLaws.RedirectLaw` | internal/cdphar/recorder.go:264-341 | A redirect finishes the newest hop, answers it if nothing has, gives up its body, makes it expect extra info exactly if announced, and opens the next hop, as far as the limits allow |
| `RecorderLaws.FailedLaw` | internal/cdphar/recorder.go:208-224 | A failed load finishes its hop as failed, keeps the text if it is paid for, and only then do extras already queued announce themselves |
| `RecorderLaws.OpeningLaw` | internal/cdphar/recorder.go:235-349 | A base event for an ID without entries takes over the parked extras and opens a hop with exactly these fields, numbered next, or records the first limit it breaks |
| `RecorderLaws.DuplicateLaw` | internal/cdphar/recorder.go:236-263 | Base events that are not of the web, and duplicates, open nothing |
| `RecorderLaws.RequestExtraLaw` | internal/cdphar/recorder.go:351-376 | An admitted request extra changes no hop but by delivery, except that a hop whose load has failed learns that extras come |
| `RecorderLaws.ResponseExtraLaw` | internal/cdphar/recorder.go:403-429 | The same for a response extra |
| `RecorderLaws.ParkedLaw` | internal/cdphar/recorder.go:494-529 | After the freeze an extra without a base request is parked behind those of its ID, the 33rd is dropped, and a limit it breaks is recorded |
| `RecorderLaws.OtherEventsChangeNothing` | internal/cdphar/recorder.go:139-173 | Events after a limit error, or later than the cutoff or without a place, change nothing, but that the IDs of base events turned away are remembered |
| `RecorderLaws.FinishedLaw` | internal/cdphar/recorder.go:200-206 | The newest hop is finished as the event says, and nothing else changes |
| `RecorderLaws.DataLaw` | internal/cdphar/recorder.go:176-185 | The lengths reported are added to the newest hop, negative ones left out |
| `RecorderLaws.CacheLaw` | internal/cdphar/recorder.go:196-199 | The newest hop is marked as served from the cache |
| `RecorderLaws.EmptyResponseLaw` | internal/cdphar/recorder.go:378-384 | A response event without its response records nothing |
| `RecorderLaws.UnknownLaw` | internal/cdphar/recorder.go:715-721 | Events about an ID without entries change nothing |
| `RecorderLaws.PageLaw` | internal/cdphar/recorder.go:225-230 | The page events leave their instants |
| `RecorderLaws.BodiesLaw` | internal/cdphar/recorder.go:431-453 | With bodies on, an event schedules exactly the hops that are loaded, answered and not waiting for extra info, and asks for exactly the newly scheduled that may have a body |
| `RecorderLaws.NoBodiesLaw` | internal/cdphar/recorder.go:431-434 | With bodies off nothing is scheduled |
| `RecorderLaws.AnswerLaw` | internal/cdphar/recorder.go:723-750 | A fetched body is kept exactly if there is room for it, a note says so otherwise, and a failed fetch leaves its message, on the entry of the task and nowhere else |
| `RecorderLaws.FreezeLaw` | internal/cdphar/recorder.go:638-644 | In a run, freezing sets the cutoff and moves nothing |
| `RecorderLaws.MarkMissingLaw` | internal/cdphar/recorder.go:690-697 | In a run, the final marking flags exactly the entries that do not know or lack extra info, and changes nothing else |
| `RecorderAnnouncements.ExpectsWhatWasAnnounced` | internal/cdphar/recorder.go:286-460 | In every run without a limit error, what a hop expects is what was announced for it last: by a response, by the redirect that ended it, or by extras of a failed load |
| `RecorderAnnouncements.HoldsOldestLeft` | internal/cdphar/recorder.go:455-492 | In every reachable state, a hop that expects extra info, with n earlier hops holding one, holds the n-th that was accepted for its ID, or none while no such has come |
| `RecorderBodies.BodiesFetchedAtMostOnce` | internal/cdphar/recorder.go:431-453 | Over any run no entry is handed to a worker twice |
| `RecorderBodies.FetchedAreScheduled` | internal/cdphar/recorder.go:447-450 | Every task handed out names an entry that exists and stays marked as scheduled |
| `RecorderBodies.NoBodyForgotten` | internal/cdphar/recorder.go:431-453 | With bodies on in every call, at every event boundary each finished, answered entry whose expected response extra has come is already scheduled, as is every hop but the newest |
| `RecorderBodies.AtMostOneTaskPerCall` | internal/cdphar/recorder.go:431-453 | One call returns at most one body task |
| `RecorderBodies.DoFetch` | internal/cdphar/recorder.go:139-233 | A call hands out only tasks that were due and not scheduled before, without repetition, and schedules them; no call undoes that |
| `RecorderCutoff.CutoffNonInterference` | internal/cdphar/recorder.go:145-173 | After a freeze, dropping the calls that hand over events which are later than the cutoff, lack a timestamp, or report the cache gives the same state, up to the set of rejected IDs, and the same tasks, whatever other calls come between (answers of workers, errors, marking), with bodies on or off call by call |
| `RecorderCutoff.RejectedIffLastBaseRejected` | internal/cdphar/recorder.go:166-172 | An ID is in the rejected set if and only if its last base event of the run was rejected by the cutoff |
| `RecorderCutoff.BufferedCacheEvent` | internal/cdphar/recorder.go:124-135 | A buffered cache event marks a hop exactly when there is no limit error and the last base event of its ID was not rejected |
| `RecorderOrder.ArchiveListsEachHopOnce` | internal/cdphar/recorder.go:326-341 | The archive list names every hop exactly once, hop number n at position n - 1, within the entry limit |
| `RecorderOrder.ArchiveSortChangesNothing` | internal/cdphar/recorder.go:758-761 | Any arrangement of the entries in order of sequence is the list as it stands, so the sort is a no-op |
| `RecorderOrder.LimitErrorIsPermanent` | internal/cdphar/recorder.go:139-144 | The first limit error is never replaced, no entry is opened after it and no task is handed out |
| `RecorderOrder.EntriesStartBeforeCutoff` | internal/cdphar/recorder.go:166-172 | Every entry opened after the freeze started at or before the cutoff |
| `RecorderOrder.DoOpens` | internal/cdphar/recorder.go:312-341 | A call opens at most one hop, only for a base event, only while no limit is broken, and numbers it next |
| `RecorderBudget.BudgetHolds` | internal/cdphar/recorder.go:606-619 | In every reachable state the size estimates of all that is held (requests, current responses, extras attached, pending or parked, failure texts, bodies) sum to no more than the retained count, which never exceeds the limit |
| `RecorderBudget.SubjectPaid` | internal/cdphar/recorder.go:606-619 | Whatever a call adds for the ID it concerns was reserved first |
| `RecorderBudget.HeldElsewhere` | internal/cdphar/recorder.go:139-233 | A call does not change what is held for any other ID |
| `RecorderOrphans.OrphanCounterExact` | internal/cdphar/recorder.go:494-529 | The parked-extras counter equals the total size of both parked maps and never exceeds 32 |
| `RecorderOrphans.AdoptOrphans` | internal/cdphar/recorder.go:250-253 | Taking over parked extras lowers the counter by what was parked, so the clamp at zero is never used |
| `RecorderOrphans.DrainStopsExactly` | internal/cdphar/recorder.go:652-713 | Draining is not needed if and only if no orphan would be counted and no entry would be marked incomplete |
| `RequestChains.CapturedEntry.constructor` | internal/cdphar/recorder.go:327-339 | A new entry has exactly the fields of a new hop |
| `RequestChains.CapturedEntry.Answer` | internal/cdphar/recorder.go:392-397 | Response, response time, last-event time and missing resource type are set, nothing else |
| `RequestChains.CapturedEntry.Finish` | internal/cdphar/recorder.go:202-205 | The entry is finished as the event says |
| `RequestChains.CapturedEntry.FailLoading` | internal/cdphar/recorder.go:210-212 | The entry is finished as failed |
| `RequestChains.CapturedEntry.Measure` | internal/cdphar/recorder.go:178-184 | Body lengths grow by the positive lengths reported |
| `RequestChains.CapturedEntry.CloseForRedirect` | internal/cdphar/recorder.go:265-285 | A redirect answers the hop if nothing has, finishes it, and with bodies on gives up its body |
| `RequestChains.CapturedEntry.ScheduleBodyFetch` | internal/cdphar/recorder.go:441-450 | The entry is scheduled if it was due; a fetch is wanted if its response may have a body |
| `RequestChains.CapturedEntry.Observe` | internal/cdphar/recorder.go:557-561 | The last-event time only moves forward from an unset or earlier time |
| `RequestChains.RequestChain.constructor` | internal/cdphar/recorder.go:242-243 | A new chain is empty |
| `RequestChains.RequestChain.ReconcileExtraInfo` | internal/cdphar/recorder.go:461-492 | The in-place loops compute the reconciled chain |
| `RequestChains.RequestChain.AttachRequestExtras` | internal/cdphar/recorder.go:462-476 | The first loop fills the request lane |
| `RequestChains.RequestChain.AttachResponseExtras` | internal/cdphar/recorder.go:477-491 | The second loop fills the response lane |
| `RequestChains.RequestChain.SetExtraInfoExpectation` | internal/cdphar/recorder.go:455-459 | The newest hop learns its expectation and the chain is reconciled |
| `RequestChains.RequestChain.ReadyBodyFetchTasks` | internal/cdphar/recorder.go:439-452 | The loop marks exactly the due hops, and returns a task for each that may have a body, in hop order |
| `RequestChains.RequestChain.QueueRequestExtra` | internal/cdphar/recorder.go:366-375 | The extra is queued; after a failed load it announces itself; the chain is reconciled |
| `RequestChains.RequestChain.QueueResponseExtra` | internal/cdphar/recorder.go:418-428 | The same for a response extra |
| `RequestChains.RequestChain.ExplainFailure` | internal/cdphar/recorder.go:220-223 | The failure text is kept, and extras already queued announce themselves |
| `RequestChains.RequestChain.TakeOver` | internal/cdphar/recorder.go:248-249 | Parked extras are queued behind those pending |
| `RequestChains.RequestChain.Append` | internal/cdphar/recorder.go:340 | The chain gains the entry as its newest hop |
| `Recorder.Recorder.constructor` | internal/cdphar/recorder.go:108-122 | A new recorder has the initial state of the model |
| `Recorder.Recorder.HandleEvent` | internal/cdphar/recorder.go:139-233 | The method on objects shared between chains and archive list computes the model step on their values and returns its tasks, whatever the event |
| `Recorder.Recorder.HandleBufferedEvent` | internal/cdphar/recorder.go:124-137 | The same for an event replayed from the buffer |
| `Recorder.Recorder.RequestWillBeSent` | internal/cdphar/recorder.go:235-349 | Computes the model of a base event: opening a chain, following a redirect, or ignoring a duplicate |
| `Recorder.Recorder.CloseRedirectedHop` | internal/cdphar/recorder.go:264-287 | Computes the closing of the redirected hop, or the limit error in its way |
| `Recorder.Recorder.AppendRequest` | internal/cdphar/recorder.go:289-341 | Computes the opening of a hop, or the limit error in its way |
| `Recorder.Recorder.AdoptParkedExtras` | internal/cdphar/recorder.go:240-255 | Computes the taking over of parked extras by a chain without entries |
| `Recorder.Recorder.RequestExtraInfo` | internal/cdphar/recorder.go:351-376 | Computes the arrival of a request extra |
| `Recorder.Recorder.ResponseExtraInfo` | internal/cdphar/recorder.go:403-429 | Computes the arrival of a response extra |
| `Recorder.Recorder.ResponseReceived` | internal/cdphar/recorder.go:378-401 | Computes the arrival of a response |
| `Recorder.Recorder.LoadingFailed` | internal/cdphar/recorder.go:208-224 | Computes a failed load, with its text if that can be paid for |
| `Recorder.Recorder.LoadingFinished` | internal/cdphar/recorder.go:200-206 | Computes a finished load |
| `Recorder.Recorder.DataReceived` | internal/cdphar/recorder.go:176-185 | Computes received data |
| `Recorder.Recorder.ServedFromCache` | internal/cdphar/recorder.go:196-199 | Marks the newest hop of the ID |
| `Recorder.Recorder.ReadyBodyFetchTasks` | internal/cdphar/recorder.go:431-453 | Computes the scheduling of the bodies of one ID; each task resolves to the entry it names |
| `Recorder.Recorder.QueueFrozenRequestExtra` | internal/cdphar/recorder.go:494-510 | Parks a request extra of an unknown ID, up to the limit |
| `Recorder.Recorder.QueueFrozenResponseExtra` | internal/cdphar/recorder.go:512-529 | Parks a response extra of an unknown ID, up to the limit |
| `Recorder.Recorder.Reserve` | internal/cdphar/recorder.go:606-619 | Grants the bytes exactly when they fit, and records the first error otherwise |
| `Recorder.Recorder.SetLimitError` | internal/cdphar/recorder.go:563-567 | Keeps the first error |
| `Recorder.Recorder.ValidateHeaders` | internal/cdphar/recorder.go:569-577 | Accepts exactly the messages within the header limit |
| `Recorder.Recorder.ValidateCookieCount` | internal/cdphar/recorder.go:598-604 | Accepts exactly the counts within the cookie limit |
| `Recorder.Recorder.SetCaptureError` | internal/cdphar/recorder.go:621-630 | Keeps the first error |
| `Recorder.Recorder.FreezeAtMonotonic` | internal/cdphar/recorder.go:638-644 | Freezes at the cutoff and reconciles every chain |
| `Recorder.Recorder.FinalizeQueuedExtraInfo` | internal/cdphar/recorder.go:646-650 | The loop over the chains reconciles each of them |
| `Recorder.Recorder.MarkMissingExtraInfo` | internal/cdphar/recorder.go:690-697 | Flags exactly the entries whose expectation is unknown or unmet |
| `Recorder.Recorder.ExtraInfoDrainNeeded` | internal/cdphar/recorder.go:652-670 | Decides whether anything is still waited for |
| `Recorder.Recorder.OrphanExtraCount` | internal/cdphar/recorder.go:699-713 | The loops count the extras without a base request |
| `Recorder.Recorder.SetResponseBody` | internal/cdphar/recorder.go:723-750 | Keeps the body, the fetch error, or the note that the body was too much, on the entry the task named |
| `Recorder.Recorder.CurrentChain` | internal/cdphar/recorder.go:715-721 | Finds the chain of an ID that has an entry |
| `Recording.Recording.constructor` | internal/cdphar/recorder.go:108-122 | A new recorder is the run of no calls |
| `Recording.Recording.HandleEvent` | internal/cdphar/recorder.go:139-233 | After any calls, handling an event leaves the recorder at the run of all calls, and returns the tasks of the last |
| `Recording.Recording.HandleBufferedEvent` | internal/cdphar/recorder.go:124-137 | The same for an event out of the freeze buffer |
| `Recording.Recording.FreezeAtMonotonic` | internal/cdphar/recorder.go:638-644 | The same for the freeze |
| `Recording.Recording.SetCaptureError` | internal/cdphar/recorder.go:621-630 | The same for an error that the capture reports |
| `Recording.Recording.SetResponseBody` | internal/cdphar/recorder.go:723-750 | The same for the answer to a body task |
| `Recording.Recording.MarkMissingExtraInfo` | internal/cdphar/recorder.go:690-697 | The same for the final marking, since in a run every hop is on the archive list |
| `Recording.Recording.ExtraInfoDrainNeeded` | internal/cdphar/recorder.go:652-670 | The drain test is that of the run, and changes nothing |
| `Capture.EveryArrivalInOrder` | internal/cdphar/capture.go:139-156 | In every interleaving, unless the capture fails, the events given to the recorder followed by those waiting in the buffer are the arrivals, in order |
| `Capture.FreezeThenReplay` | internal/cdphar/capture.go:160-195 | The recorder sees the events from before the freeze, the freeze, the buffered events in full, then the rest: nothing comes between the freeze and the replay |
| `Capture.RecorderRunsItsInput` | internal/cdphar/capture.go:117-132 | The recorder is in the state its calls lead to, so what is proved of its runs holds in every session, body answers of workers included |
| `Capture.BoundsHold` | internal/cdphar/capture.go:143-150 | Buffered bytes are the sum of the buffered sizes and within the limit, as are queue and workers; the queue closes at most once, and nothing is sent after that |
| `Capture.EachTaskInOnePlace` | internal/cdphar/capture.go:110-116 | Every task handed out is in exactly one place: not sent yet, queued, with one worker, finished, or refused by a full queue |
| `Capture.EachTaskAnsweredOnce` | internal/cdphar/capture.go:300-313 | Each task is answered at most once, to a scheduled entry, and after the workers have been joined each has been answered |
| `Capture.Invariant` | internal/cdphar/capture.go:82-228 | The conjunction of the phase, buffer, queue, order and conservation invariants over every interleaving |
| `CaptureAnswers.FinishedReachesEntry` | internal/cdphar/capture.go:310-313 | In every interleaving, before and after: what a worker fetched is the body of the entry it was fetched for if and only if there was room for it, and otherwise a note says so; the message of a failed fetch stays, unless a redirect of that entry comes later |
| `CaptureAnswers.RefusedReachesEntry` | internal/cdphar/capture.go:110-116 | A task that meets a full queue of 64 leaves the message that the queue is full on its entry, by the same rule |
| `CaptureAnswers.EveryTaskShowsItsAnswer` | internal/cdphar/capture.go:300-313 | No task is answered twice, every answer given is found on its entry, and after the workers have been joined each task handed out has had its answer |
| `CaptureAnswers.BodiesWereFetched` | internal/cdphar/capture.go:310-313 | An entry has a body only if a worker fetched exactly that for it |
| `CaptureAnswers.CallKept` | internal/cdphar/recorder.go:723-750 | No call but the answer to an entry changes its body, nor its body error unless it is redirected |
| `CaptureAnswers.BufferTakesWhatFits` | internal/cdphar/capture.go:147-156 | During the freeze an event that fits waits in the buffer and the recorder is left alone; one that does not is the error of the capture |
| `CaptureAnswers.FlaggedWhenJoined` | internal/cdphar/capture.go:226-228 | After the join, entries are flagged exactly where extra info is lacking |
| `Coordinator.Coordinator.constructor` | internal/cdphar/capture.go:93-137 | A session starts in the initial state of the protocol |
| `Coordinator.Coordinator.Listen` | internal/cdphar/capture.go:139-156 | The listener takes one arrival step and then sends each task; it drops, buffers, reports the overflow or processes as the protocol does |
| `Coordinator.Coordinator.ProcessEvent` | internal/cdphar/capture.go:117-132 | One event takes one step and a send for each of its tasks |
| `Coordinator.Coordinator.Schedule` | internal/cdphar/capture.go:110-116 | A task is queued, or answered at once when the queue is full |
| `Coordinator.Coordinator.BeginFreeze` | internal/cdphar/capture.go:161-163 | Freezing begins |
| `Coordinator.Coordinator.FinishFreeze` | internal/cdphar/capture.go:179-195 | With a cutoff the recorder is frozen and the buffer replayed before the mutex is released; without one the buffer is dropped |
| `Coordinator.Coordinator.ReplayBuffer` | internal/cdphar/capture.go:188-190 | The loop replays every buffered event in order |
| `Coordinator.Coordinator.StopTasks` | internal/cdphar/capture.go:300-306 | Acceptance ends and the queue is closed, once |
| `Pacing.StartIsMaximum` | internal/cli/search_details.go:582-589 | The k-th start is the maximum over i up to k of reading i plus (k - i) delays |
| `Pacing.StartsAreSpaced` | internal/cli/search_details.go:582-589 | Any two starts are at least one delay apart |
| `Pacing.StartIsEarliest` | internal/cli/search_details.go:582-589 | No schedule that respects the readings and the spacing starts earlier |
| `Pacing.Pacer.WaitForTurn` | internal/cli/search_details.go:570-591 | The wait returned ends exactly at that start; without a delay nothing waits |
| `Enrichment.PauseBound` | internal/cli/search_details.go:395-434 | Once a retryable failure is recorded and while that pause holds, at most the other workers begin one more fetch each (none with one worker), and the deadline never moves earlier |
| `Enrichment.PauseBoundInRun` | internal/cli/search_details.go:256-283 | The same after any interleaving of any sequence of calls |
| `Enrichment.WhilePauseHolds` | internal/cli/search_details.go:269-283 | While a pause holds, fetches begin only by using up workers that had passed the second check |
| `Enrichment.RefetchOnlyAfterExpiry` | internal/cli/search_details.go:324-334 | Between two fetches of one URL in any interleaving, some lookup found the URL cached as an error with a retry time that had come |
| `Enrichment.NoRefetchAfterPage` | internal/cli/search_details.go:324-334 | Once a URL has answered with a page, no later step begins to fetch it |
| `Enrichment.KnownStep` | internal/cli/search_details.go:593-608 | A URL that is cached or in fetch stays so at every step, unless the step is a lookup that finds its error expired |
| `Enrichment.CacheStep` | internal/cli/search_details.go:593-608 | Nothing leaves the cache but by a lookup that finds an error past its retry time, and a page is never overwritten |
| `Enrichment.CallAccounted` | internal/cli/search_details.go:337-439 | When the fetches of a call are done, fetched + skipped = total and cached + total = the number of distinct non-empty trimmed URLs |
| `Enrichment.CallLeavesResults` | internal/cli/search_details.go:429-439 | When the fetches of a call are done, every URL it asked for has a result in the cache |
| `Enrichment.ReadDropsExpired` | internal/cli/search_details.go:441-454 | The lookups after the fetches change no result, and drop exactly the errors of looked-up URLs that have expired |
| `Enrichment.PoolInvariant` | internal/cli/search_details.go:308-434 | Each URL of a call is in one place (cached, queued or with one worker), and the counters add up, in every interleaving |
| `EnrichmentPauses.RefusalPauses` | internal/cli/search_details.go:256-267 | In every interleaving, a fetch refused with a challenge or a rate limit has set the pause once its worker passes the result on: until at least five minutes after the answer, or as long as the rate limit says |
| `EnrichmentPauses.RefusalStopsFetches` | internal/cli/search_details.go:269-283 | From then until that time, while nobody resets the pause, at most one more fetch begins for each other worker, and the pause still holds |
| `EnrichmentPauses.PauseLasts` | internal/cli/search_details.go:269-283 | A pause holds at every point of a run that neither resets it nor reads a clock past its time |
| `EnrichmentPauses.ChecksSkip` | internal/cli/search_details.go:395-418 | Each check made in it turns its URL into a skip with the error and the time of the pause |
| `EnrichmentPauses.PauseLaw` | internal/cli/search_details.go:256-267 | A challenge or a rate limit with a time to try again sets the pause, unless one until as late a time is set; nothing else does |
| `EnrichmentPauses.FetchLaw` | internal/cli/search_details.go:541-561 | What is stored and when it may be fetched again, answer by answer |
| `EnrichmentPauses.CheckLaw` | internal/cli/search_details.go:269-283 | A check before the time of the pause skips the URL; one after it drops the pause and lets the URL pass |
| `EnrichmentPauses.StartLaw` | internal/cli/search_details.go:379-393 | How many workers start, and that none does in a pause, when every URL is skipped |
| `EnrichmentPauses.ScanLaw` | internal/cli/search_details.go:314-336 | A URL is queued exactly if it is not blank, not seen, not cached or past its retry time, and not on disk |
| `EnrichmentPauses.ReadLaw` | internal/cli/search_details.go:593-602 | A lookup drops an error whose retry time has come, and nothing else |
| `EnrichmentPauses.StoreLaw` | internal/cli/search_details.go:604-608 | Each result is stored under its URL, and counted as skipped or fetched |
| `RecencyFates.FatesStep` | internal/cli/search_details.go:1052-1091 | One more URL is skipped exactly when a pause that was on at the start, or set by an earlier URL of the pass, has lasted until its turn; otherwise it is fetched unless the caller gives up |
| `RecencyFates.BlockStep` | internal/cli/search_details.go:256-283 | The pause in hand is one of those that have lasted so far, and as late as any of them |
| `RecencyFates.ResultsStep` | internal/cli/search_details.go:604-608 | Each URL done has its result in the cache: what was fetched, the cancellation, or the error and the time of such a pause |
| `DetailEnricher.DetailEnricher.PauseAfterRetryable` | internal/cli/search_details.go:256-267 | The block is replaced exactly by a retryable failure with a later deadline; see EnrichmentPauses.PauseLaw for what that is |
| `DetailEnricher.DetailEnricher.CheckPause` | internal/cli/search_details.go:269-283 | The active block is returned, an expired one dropped |
| `DetailEnricher.DetailEnricher.Cached` | internal/cli/search_details.go:593-602 | The cached result is returned, an expired error dropped |
| `DetailEnricher.DetailEnricher.Store` | internal/cli/search_details.go:604-608 | The result is cached under its URL |
| `DetailEnricher.DetailEnricher.EnrichRecency` | internal/cli/search_details.go:1008-1102 | Which URLs of the pass are skipped, given up or fetched, exactly: a URL is skipped if and only if some pause, from before or set by an earlier answer of the pass, has lasted until its turn. The result stored for each is that of its fate; the counters add up; every wanted URL has a result when the fetches are done; the lookups after them return and leave what has not expired |
| `DetailEnricher.DetailEnricher.ReadUrls` | internal/cli/search_details.go:1098-1102 | The second loop looks each URL up again and drops expired errors |
| `DetailEnricher.DetailEnricher.ScanUrls` | internal/cli/search_details.go:1012-1034 | The first loop collects the distinct uncached URLs in order and counts the cached ones |
| `DetailEnricher.DetailEnricher.EnrichOne` | internal/cli/search_details.go:1052-1091 | One URL is skipped in a pause, else given up if the caller has, else fetched; the result stored and the pause afterwards, exactly; the second pause check of the pass is dead code |
| `Filters.PrefilterChangesNothing` | internal/cli/search_details.go:716-760 | For every list and every option set, the final filter after the metadata prefilter equals the final filter alone |
| `Filters.PrefilterLeavesRecencyPass` | internal/cli/search_details.go:875-881 | When ages are verified later, the verifying pass is given the same listings with or without the prefilter |
| `Filters.MatchIffVerified` | internal/cli/search_details.go:772-855 | A listing is kept as a match if and only if every fact the options ask about is known and as asked |
| `Filters.MismatchIsRejected` | internal/cli/search_details.go:726-756 | Each reason of the prefilter is one of the final filter |
| `Filters.LenientBoundaryFirst` | internal/cli/search_location_filter.go:58-102 | The strict boundary filter after its lenient form equals the strict one alone |
| `Filters.LenientBedRangesFirst` | internal/cli/search_discovery.go:44-77 | The strict bed-range filter after its lenient form equals the strict one alone |
| `Filters.PrefilterKnownListingMetadata` | internal/cli/search_details.go:716-760 | The loop computes the prefilter |
| `Filters.FilterDetailedListingsBeforeRecency` | internal/cli/search_details.go:772-855 | The loop computes the final judgement of each listing |
| `Filters.FilterListingsByRecency` | internal/cli/search_details.go:857-869 | The loop keeps exactly the listings of known and sufficient recency |
| `Filters.FilterDetailedListings` | internal/cli/search_details.go:871-873 | The final filter, the same with or without the prefilter |
| `Filters.FilterListingsByLocationBoundary` | internal/cli/search_location_filter.go:58-102 | The loop computes the boundary filter |
| `Filters.ExpectedCitiesOf` | internal/cli/search_location_filter.go:64-70 | The loop collects the city of the query and its aliases |
| `Filters.ListingMatchesBedRanges` | internal/cli/search_discovery.go:58-77 | The loop finds whether any range is open or contains the bed count |
| `Filters.FilterListingsByBedRanges` | internal/cli/search_discovery.go:44-56 | The loop computes the bed-range filter |
| `FilterLaws.JudgeLaw` | internal/cli/search_details.go:772-855 | A listing is dropped exactly for one of the reasons spelled out (area, dates from and to, cost, status, laundry, parking, pets, spaces, housing kinds); if not, it is a match without doubts, or on the watchlist with all of its doubts in order |
| `FilterLaws.FinalLaw` | internal/cli/search_details.go:857-873 | The final filter returns, in order, the listings that are neither dropped nor too old, each as a match or with its doubts |
| `FilterLaws.KeptMeaning` | internal/cli/search_details.go:857-873 | The positions kept ascend, and are those of the listings that stay |
| `FilterLaws.PrefilterLaw` | internal/cli/search_details.go:716-760 | Buildings pass the prefilter, and of the rest exactly those that no known fact shows to be out |
| `FilterLaws.RecencyLaw` | internal/cli/search_details.go:857-869 | The recency filter keeps exactly what is known to be recent enough |
| `FilterLaws.ParkingLaw` | internal/cli/search_details.go:926-942 | Which kinds of parking each parking filter accepts |
| `FilterLaws.PetsLaw` | internal/cli/search_details.go:944-968 | Which policies and allowed pets each pet filter accepts |
| `FilterLaws.GarageLaw` | internal/cli/search_details.go:908-924 | Two bedrooms and no spare space but a private garage |
| `Retry.RetryMeaning` | internal/zillow/search_discovery.go:314-365 | A request is tried until an attempt is granted, is refused for good, or is the last allowed, or until the caller gives up in a wait; each attempt before was refused for now, and each wait is the doubled and capped backoff, or what a rate limit asks for if longer |
| `Retry.BackoffDelay` | internal/zillow/search_discovery.go:350-365 | The doubling loop returns the base times 2^attempt, capped at five minutes; its delays are 64-bit durations throughout |
| `Retry.BackoffCapped` | internal/cli/search_retry.go:69-84 | Once a delay has reached half the cap, every later one is at the cap |
| `Retry.RequestWithRetry` | internal/zillow/search_discovery.go:314-338 | The attempt loop returns the first answer that is granted, not retryable, out of retries or cancelled, after at most retries+1 attempts |
| `Retry.GivesUpOnlyWhenSpent` | internal/cli/search_retry.go:43-62 | A retryable refusal is final only if every one of the retries+1 attempts was refused that way |
| `Discovery.OptionsLaw` | internal/zillow/search_discovery.go:258-300 | The options are refused for the first reason that applies, route errors in route order, and accepted, with defaults filled in and names trimmed, if none does |
| `Discovery.DiscoverLocation` | internal/zillow/search_discovery.go:83-204 | The whole discovery computes its specification, error cases included |
| `Discovery.DiscoverRoutes` | internal/zillow/search_discovery.go:112-203 | The route loop over mutable sets and counters gives the declarative result: first occurrences, coverage per route, issues |
| `Discovery.FetchRoute` | internal/zillow/search_discovery.go:119-198 | The page loop of one route: its run, its coverage, and what it adds |
| `Discovery.AddPage` | internal/zillow/search_discovery.go:172-188 | The item loop adds exactly the new keys, and counts those new to the route |
| `Discovery.CheckRoutesInOrder` | internal/zillow/search_discovery.go:282-298 | The validation loop reports the first error in route order |
| `Discovery.CheckedRoutes` | internal/zillow/search_discovery.go:282-298 | Valid routes have distinct non-empty names and limits within the maximum |
| `Discovery.FirstOccurrencesKeys` | internal/zillow/search_discovery.go:178-188 | The listings found have distinct keys, as many as there are distinct keys, and all of them |
| `Discovery.FirstOccurrencesInOrder` | internal/zillow/search_discovery.go:178-188 | Each listing found is the first of its key, and they keep fetch order |
| `Discovery.RouteWithinCap` | internal/zillow/search_discovery.go:126-197 | A route fetches pages 1..k with k within its cap, with one request per page and one for a page that failed |
| `Discovery.EachRouteWithinCap` | internal/zillow/search_discovery.go:122-126 | The same for each route of a run, with its own cap |
| `Discovery.RoutesArePrefix` | internal/zillow/search_discovery.go:198-201 | The routes run are a prefix of the routes given, cut short only by a refusal that ended the discovery or by the caller |
| `Discovery.IssuesInOrder` | internal/zillow/search_discovery.go:164-168 | Each route has at most one issue, and none follows a retryable one |
| `Discovery.RequestsWithinCaps` | internal/zillow/search_discovery.go:118-150 | All page requests together, and the one given up in a pause, stay within the sum of the caps |
| `Discovery.RoutePauses` | internal/zillow/search_discovery.go:127-150 | A route pauses before each of its requests but the first of the run, and once more if the caller gave up in a pause |
| `Discovery.PausesCounted` | internal/zillow/search_discovery.go:127-150 | All routes together pause once between every two requests, and once more if the caller gave up in a pause |
| `Discovery.AllAttemptsBounded` | internal/zillow/search_discovery.go:314-338 | Each request takes between one attempt and retries+1 |
| `DiscoveryListings.FirstsIffNeverPasses` | internal/zillow/search_discovery.go:171-188 | Every site gets its listings returned once each, in order, the first of those that are the same, if and only if no place that a page may have passes for the text of an ID, URL or address |
| `DiscoveryListings.ListingsAreFirsts` | internal/zillow/search_discovery.go:171-188 | Then a discovery returns, of everything fetched, in order, each listing that is not the same as one before: by ID, without IDs by URL, with neither by address but for case; listings with none of them all |
| `DiscoveryListings.FirstsMeaning` | internal/zillow/search_discovery.go:178-188 | The positions kept ascend, and are exactly those with no earlier listing that is the same |
| `DiscoveryListings.EachIdOnce` | internal/zillow/search_discovery.go:378-381 | Each ID fetched is returned once, as the listing first fetched with it |
| `DiscoveryListings.NoneTwice` | internal/zillow/search_discovery.go:182-188 | No two listings returned are the same |
| `DiscoveryListings.FirstIsKept` | internal/zillow/search_discovery.go:182-188 | Of those fetched that are the same, one no later is returned |
| `DiscoveryListings.KeysTell` | internal/zillow/search_discovery.go:378-390 | Two listings of a run have one key if and only if they are the same |
| `DiscoveryListings.PlaceIsInjective` | internal/zillow/search_discovery.go:173-176 | No two places have one text |
| `DiscoveryListings.IdPasses` | internal/zillow/search_discovery.go:173-176 | An input for which a listing can be lost: a route named id |
| `DiscoveryListings.ApartIsEnough` | internal/zillow/search_discovery.go:282-290 | Route names that begin neither with id:, url: nor address:, a colon added, never pass |
| `DiscoveryListings.CoverageCounts` | internal/zillow/search_discovery.go:119-195 | The coverage of a route counts its pages, its listings that are not the same as one before, and reports the totals of its last page |
| `DiscoveryListings.RouteStops` | internal/zillow/search_discovery.go:126-197 | A route fetches pages in order, each as the site answered, until the first that ends it: one that is the last, is empty, or, without a page count, shows nothing the route has not shown; else to its cap, or a refusal |
| `DiscoveryListings.IssuesAreRefusals` | internal/zillow/search_discovery.go:164-168 | The issues are the refusals that ended routes, each with its route, the page after the last fetched, and the error |
| `Plan.EstimateCoversSearch` | internal/cli/search_progress.go:80-108 | With options the command built, any accepted overrides, any sites, cached or unusable locations and a caller who may give up at any pause, a search makes no more requests, and waits no longer before pages and between locations, than estimated |
| `Plan.EstimateIsMet` | internal/cli/search_progress.go:80-108 | When every location is searched and no route stops early, requests and pauses equal the estimate |
| `Plan.EstimateCoversRetries` | internal/cli/search_progress.go:80-108 | Counting every retry, the attempts are at most retries+1 times the estimated requests |
| `Plan.PlanCoversRun` | internal/cli/search_progress.go:91-102 | For one location and any options that are explicit, the requests made, the pauses waited and the attempts stay within the plan |
| `Plan.PlanExact` | internal/cli/search_progress.go:92-98 | The plan covers every run if and only if there are routes and each has a limit of its own or a common one: what the estimator reads differs from what validation fills in otherwise |
| `Plan.PlanFallsShort` | internal/zillow/search_discovery.go:275-278 | A concrete input for which the plan is short: no routes, and a site that answers |
| `Plan.PlanMetWithoutEarlyStop` | internal/cli/search_progress.go:91-102 | When no route stops early, the requests equal the plan exactly under the same condition, and then so do the pauses |
| `Plan.EstimateMultiLocationSearchPlan` | internal/cli/search_progress.go:80-108 | The nested loops compute the estimate |
| `Plan.EstimateRoutes` | internal/cli/search_progress.go:92-98 | The inner loop sums the page limits of the routes |
| `Plan.BuildLocationDiscoveryOptions` | internal/cli/search_discovery.go:79-181 | The builder yields every bed range with every sort, the supplemental and the keyword routes, in that order and within all limits, if and only if no reason to refuse applies, and otherwise the first reason that does |
| `Plan.CommandKeepsListings` | internal/cli/search_discovery.go:79-181 | With the routes the command builds and any page override, no listing is lost and none returned twice, whatever the site |
| `Plan.MainRouteInOrder` | internal/cli/search_discovery.go:115-139 | Route i times the number of sorts plus j has the label of bed range i and the value and page limit of sort j |
| `Plan.SupplementalRouteInOrder` | internal/cli/search_discovery.go:141-160 | Then comes one route for each bed range with the supplemental limit |
| `Plan.KeywordRouteInOrder` | internal/cli/search_discovery.go:161-178 | Last comes one route for each keyword, numbered from one; there are no others |
| `Plan.BuildMainRoutes` | internal/cli/search_discovery.go:115-139 | The nested loops build a route for each bed range and sort, or report a page limit that is too high |
| `Plan.ApplyLocationPageOverride` | internal/cli/search_discovery.go:401-415 | The clone has the overriding limit and each route clamped to it |
| `Plan.OverrideLowersCaps` | internal/cli/search_discovery.go:401-415 | An override for the location, trimmed and in lower case, lowers the page limit of each route to the override and no further, changes nothing else, and keeps the options valid |
| `Money.MoneyRoundTrip` | internal/cli/format.go:18-57 | For every integer n from 0 to 2^53, parsing the money text printed for n gives back n |
| `Money.RoundTripIffFloat` | internal/zillow/search.go:793-798 | Beyond that, n is read back if and only if it is a 64-bit float |
| `Money.ReadPrinted` | internal/zillow/search.go:766-799 | What is read from a printed number is that number as a float holds it |
| `Money.NegativeIsRefused` | internal/cli/format.go:46-57 | Printed negative numbers are refused, the smallest 64-bit integer, whose negation wraps, included |
| `Money.ScannedTokenIsWellFormed` | internal/zillow/search.go:776-779 | In every text, the token the scanner returns is accepted by the normaliser, so that rejection branch is unreachable |
| `Money.CommasShape` | internal/cli/format.go:52-55 | A printed number is a first group of one to three digits and groups of three, with the same digits |
| `Money.InsertCommas` | internal/cli/format.go:52-55 | The loop inserts the commas |
| `Money.CommaIntLoop` | internal/cli/format.go:46-57 | Sign, 64-bit negation and grouping |
| `Money.ScanNumericToken` | internal/zillow/search.go:834-861 | The loops find the end of the token |
| `Money.OneNumericToken` | internal/zillow/search.go:817-832 | The loop finds the only token, or that there is none or more than one |
| `Money.HasNegativeMoneySign` | internal/zillow/search.go:801-815 | The loop finds a minus sign before the number, currency symbols and white space aside |
| `MoneyLaws.WordLaw` | internal/zillow/search.go:781-798 | A printed number with a word behind it is read as the number times a thousand, million or billion if the word begins with k, m or b and no letter follows, and as the number otherwise |
| `MoneyLaws.UnitRoundTrip` | internal/zillow/search.go:781-798 | With a single such letter it is read exactly, up to 2^53 |
| `MoneyLaws.TwoNumbersAreRefused` | internal/zillow/search.go:817-832 | With another number anywhere behind it, it is refused |
| `MoneyLaws.CentsLaw` | internal/zillow/search.go:834-861 | With decimals it is read as the float nearest to the decimal number, rounded to the nearest whole |
| `MoneyLaws.MinusIsRefused` | internal/zillow/search.go:801-815 | With either minus sign before the currency symbol it is refused |
| `Percent.SmallLettersDecode` | internal/har/sanitize.go:340-349 | Escapes in small letters decode as those in capitals |
| `Percent.UnescapeEscape` | internal/har/sanitize.go:326-333 | Unescaping undoes escaping, for every byte string, in a path segment and in a query |
| `Percent.EscapedHasNoDelimiter` | internal/har/sanitize.go:324-326 | Escaped text holds no delimiter of its place |
| `Percent.UnescapeAtEquals` | internal/har/sanitize.go:340-349 | The two sides of an equals sign decode apart |
| `Sanitize.PathIdempotent` | internal/har/sanitize.go:324-401 | For every path, rewriting twice equals rewriting once, despite the carry from a sensitive segment to the next |
| `Sanitize.QueryIdempotent` | internal/har/sanitize.go:403-450 | For every query, rewriting twice equals rewriting once, and the components stay as many |
| `Sanitize.PathKeepsSegments` | internal/har/sanitize.go:325-400 | The number of segments is unchanged |
| `Sanitize.EachSegmentKeepsItsParts` | internal/har/sanitize.go:329-398 | The number of matrix parts of each segment is unchanged |
| `Sanitize.MarkerWithoutEquals` | internal/har/sanitize.go:326-396 | All paths are stable under all rules that treat a marker as harmless if and only if the marker holds no equals sign, which a path segment does not escape |
| `Sanitize.StableIffMarkerStays` | internal/har/sanitize.go:326-396 | Under given rules that replace some name, all paths are stable if and only if the marker is rewritten to itself, alone and as a key with itself as value |
| `Sanitize.CleanTextUnchanged` | internal/har/sanitize.go:324-450 | Where nothing is sensitive, every path and query that decodes is left alone |
| `Sanitize.SegmentsAgain` | internal/har/sanitize.go:327-366 | The second pass may miss what condemned a segment, and still changes nothing |
| `Sanitize.PartAgain` | internal/har/sanitize.go:369-397 | Rewriting one matrix part or query component twice is rewriting it once |
| `Sanitize.SanitizeURLPath` | internal/har/sanitize.go:324-401 | The loop with its carry computes the rewriting, decoding errors included |
| `Sanitize.RewriteSegmentInPlace` | internal/har/sanitize.go:329-398 | The loop over the parts of a segment overwrites each |
| `Sanitize.SanitizeRawQuery` | internal/har/sanitize.go:403-450 | The scan over the bytes computes the rewriting, decoding errors included |
| `SanitizeLaws.PathLaw` | internal/har/sanitize.go:324-401 | A path is rewritten if and only if every piece of it decodes. Split again it has the same pieces: the base of a segment that follows a sensitive or credential-like one is the marker; sensitive keys have the marker as value; other values are cleaned; and everything else is unchanged |
| `SanitizeLaws.AfterSensitive` | internal/har/sanitize.go:336-367 | Of two segments, the first a sensitive name not itself replaced, the first stays and the second is the marker |
| `SanitizeLaws.BaseLaw` | internal/har/sanitize.go:329-367 | What becomes of a base, and that exactly a base that is sensitive or credential-like, has no equals sign and is not replaced itself condemns the next |
| `SanitizeLaws.PartLaw` | internal/har/sanitize.go:369-397 | What becomes of a matrix part or query component: key, value and marker, whichever applies first |
| `SanitizeLaws.QueryLaw` | internal/har/sanitize.go:403-450 | A query is rewritten if and only if every component decodes, each component by that rule, between the same delimiters |
| `SanitizeLaws.ComponentsMeaning` | internal/har/sanitize.go:410-415 | The components are what is between ampersands and semicolons |
| `History.ReportMeaning` | internal/zillow/rental_facts.go:319-346 | If a listed date is reported it is that of the latest listing, no reset is dated after it, the update is the latest date of all, and the days are those since, 106751 at most, unless it is in the future; if none is reported, each listing was undone no earlier than it was made |
| `History.ListedIffStands` | internal/zillow/rental_facts.go:322-336 | Provided the latest listing and the latest reset do not share a date, a date is reported if and only if some listing is later than every reset |
| `History.OrderMattersIffTied` | internal/zillow/rental_facts.go:319-337 | All orders in which the unstable sort may leave the events report the same instants if and only if the latest listing and the latest reset do not share a date other than the zero time |
| `History.SortTiesDoNotMatter` | internal/zillow/rental_facts.go:319 | Two sorted arrangements of events without such a tie report the same instants |
| `History.TieMatters` | internal/zillow/rental_facts.go:319 | With such a tie there are two sorted arrangements, one that reports a date and one that reports none |
| `History.TieExample` | internal/zillow/rental_facts.go:319 | A sale and a rental listing on one date are such a tie |
| `History.RentalHistoryRecency` | internal/zillow/rental_facts.go:294-347 | Filter, sort and fold compute the report of some sorted arrangement of the retained events |
| `History.Words` | internal/zillow/rental_facts.go:327-351 | Which words take a unit off the market, and which put it on |
| `History.RetainedMeaning` | internal/zillow/rental_facts.go:299-315 | Each event is retained as often as an item stands for it that is dated and is rental, mentions rent, or resets |
| `History.RetainEvents` | internal/zillow/rental_facts.go:299-315 | The loop keeps exactly the dated events that are rental, mention rent, or reset |
| `History.SortByDate` | internal/zillow/rental_facts.go:319 | Some arrangement of the events in order of date |

## Left out

- HAR field assembly, timings, header, cookie and page-title conversion: wide and shallow.
- Network, browser, TLS, JSON, HTML, URL and regular-expression libraries, and date parsing: replaced by arbitrary inputs or parameters.
- The post data, initiator and query values of a request: only their size estimate, which is part of the request's, is kept.
- Nil event pointers, and events of types the recorder ignores.
- The choice between text and base64 for a body: a body is given as it would be kept.
- The wrap-around of the 64-bit body-length and retained-byte counters: integers are unbounded, and the retained bytes stay below the limit.
- The timer of the extra-info drain: it only polls, and polling is a step that changes nothing.
- Coordinator.Coordinator.Listen: keeps the recorder inside as the value its class is proved to compute, so object sharing between recorder and coordinator is not modelled.
- Recorder.Recorder.SetResponseBody: the worker's task is found by its entry and, for the proof, its hop; that a queued task's entry stays on its chain is proved on values only.
- Enrichment.PauseBound: counts fetches that begin after the pause is recorded; fetches already under way are not cut short by the code.
- The merging of fetched details into listings and the expansion of communities.
- The disk cache: what it holds for a URL is an arbitrary answer at the scan.
- Discovery.DiscoverLocation: the bootstrap page is one retried request whose profile is opaque.
- CaptureAnswers.FinishedReachesEntry: the message of a failed fetch may give way to that of a redirect that comes later, as in the code.
- EnrichmentPauses.RefusalStopsFetches: between the answer and the moment its worker passes it on, other workers may begin fetches; the code has that gap too.
- DiscoveryListings.FirstsIffNeverPasses: case folding is a parameter, so which addresses a route name may read like is left to it.
- Plan.EstimateCoversSearch: the waits are those before pages and between locations; the backoff before a retry is not part of the estimate.
- Sanitize.StableIffMarkerStays: needs a name that the rules replace; without one the marker may never come to stand where it would be rewritten.
- RecorderCutoff.CutoffNonInterference: leaves out buffered cache events, which ask for the rejected IDs; RecorderCutoff.BufferedCacheEvent says what those do.
- Plan.BuildLocationDiscoveryOptions: takes the flags parsed; the parsers yield at least one bed range and one sort.
- Money.RoundTripIffFloat: rounding to 64-bit floats is a parameter that keeps floats and is exact on whole numbers up to 2^53; nothing else is known of it.
- Money.ScannedTokenIsWellFormed: text that is not valid UTF-8 is not modelled.
- Full idempotence of URL and JSON value rewriting: the value rewriter is a parameter, since URL-shaped values with leading white space change shape when printed again.
- History.OrderMattersIffTied: compares instants; the calendar day of one instant may differ between events written in different zones.
- Laundry, parking, pet and housing classifiers, candidate scoring, table output, flag parsing, session files, listing annotation.
