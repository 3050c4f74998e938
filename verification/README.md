# Verified model of the agent control plane

This project models the parts of the control plane where state, time and concurrency make the answer hard to see
from one function body, and proves what those parts promise over every input, every run and every interleaving.
Code that updates fields in place is modelled by classes and loops, each proved against a specification function or a
step of a state machine; the lemmas are about those. `dafny verify dfyconfig.toml` checks everything.

| file | what it models |
|---|---|
| `Calendar.dfy` | the proleptic Gregorian calendar by succession of days, and its closed form |
| `CronText.dfy`, `CronFields.dfy`, `CronMeaning.dfy` | white space, splitting, lower case; the five-field parser and the normal form; what each form of a field means |
| `CronSearch.dfy` | the minute-by-minute search for the next occurrence, in any zone and in UTC |
| `EventLog.dfy`, `MobileState.dfy` | event numbering and paging; the phone's fold of events |
| `Repository.dfy` | the in-memory repository: events, jobs, idempotent commits, schedule locks |
| `JobQueue.dfy`, `Dispatcher.dfy`, `Occurrences.dfy` | every interleaving of workers on the queue and on the schedules, crashes included; that occurrences keep coming |
| `EventStream.dfy`, `Delivery.dfy` | subscribe, query, replay, flush, live: one connection against any writers; what exactly the client gets |
| `Frames.dfy` | event-stream frames cut into arbitrary chunks; the bounded event buffer |
| `Response.dfy` | response parts as the server assembles them and as a client rebuilds them |
| `TaskForest.dfy`, `TaskViews.dfy` | the task hierarchy on the service; the upward walk, progress and order on clients |
| `Computers.dfy` | takeover leases and shared computers |
| `BrowserLock.dfy`, `JsonRpc.dfy` | the promise-chain lock; the table of unanswered requests |

Repository calls are atomic, as the transactions of `services/api/src/database/postgres-repository.ts` make them. Time
is an integer number of milliseconds. Answers of other processes, new ids, clock readings and time zones are
arguments, so a statement holds whatever they are. Ids and texts that are only compared are numbers.

Results worth knowing:

- A day-of-month field that begins with `*/` counts as a wildcard, so its values do not restrict the day
  (`services/api/src/schedules/cron.ts:40`). The model follows the code; `SearchSucceedsExactly` accounts for it.
- The search fails on satisfiable dates: from 1 March 2096 a schedule for 29 February has no occurrence in the window.
- From every reachable state one idle worker gets an enabled cron schedule dispatched at its stored time and the next
  one stored, as long as the search finds something for the stored schedules (`OccurrencesKeepComing`). If it finds
  nothing for the one that is due first, as after 29 February 2096, a dispatcher that runs alone claims that one again
  and again and serves no other (`FailingSearchBlocks`).
- With events stored and published in cursor order a replay is complete exactly when at most 5,000 events are in the
  backlog; otherwise the client gets the first 5,000 of it and everything published later, and never the rest.
- Publication in cursor order is not enough: when at most 5,000 events are stored as the replay query runs, a client
  misses nothing exactly if no event at or before the last replayed row becomes visible after the query
  (`NothingLostExactly`; `LateCommitIsDropped` is a run that loses one).
- A client's live parts agree with the server's exactly if no completed agent message arrived without deltas while the
  content was still empty.
- Completion of a job is final exactly if nobody else is still processing it; a settled job can come back into the
  queue exactly if processing of it is under way that would be retried.
- A move keeps all stored task depths right exactly if the task has no children or goes where a task of its depth
  belongs.
- Progress adds up over the children exactly for tasks that are not below themselves.
- A manager's answer is safe for "at most one shared computer", whatever else is stored, exactly if it reports no
  browser where none was given; two plain computers reported as browsers are both shared.

## Model

| member | source | states |
|---|---|---|
| Calendar.Succession | services/api/src/schedules/cron.ts:115-121 | the calendar the formatter shows: each day's date is the next date after the day before's, leap years included |
| Calendar.DayNumberOfDateOf | services/api/src/schedules/cron.ts:115-121 | the closed form of the day number recovers every day from its date |
| Calendar.DateOfDayNumber | services/api/src/schedules/cron.ts:115-121 | and every date from its day number, so dates and days correspond one to one |
| Calendar.WeekdaysFollow | services/api/src/schedules/cron.ts:121 | 1 January 1970 was a Thursday and the weekdays follow each other |
| Calendar.YearlyRecurrence | services/api/src/schedules/cron.ts:113-115 | a date that exists in every year comes round within 366 days of any minute |
| CronText.NormalIsJoinedWords | services/api/src/schedules/cron.ts:69 | trimming and replacing white space gives the words joined by single blanks, for every text |
| CronText.SplitOfJoin | services/api/src/schedules/cron.ts:70 | splitting at blanks gives those words back |
| CronText.WordsOfJoin | services/api/src/schedules/cron.ts:69-70 | joined words have the same words |
| CronText.TrimExactly | services/api/src/schedules/cron.ts:37 | trimming removes the white space at both ends and nothing else |
| CronText.LettersLowered | services/api/src/schedules/cron.ts:69 | the capital letters become the small ones and every other character stays |
| CronText.SpacesAre | services/api/src/schedules/cron.ts:69 | the white space that is trimmed and collapsed, character by character |
| CronFields.AddRange | services/api/src/schedules/cron.ts:62 | the inner loop adds exactly the values of the stepped range, 7 folded to 0 for weekdays |
| CronFields.ParseField | services/api/src/schedules/cron.ts:36-66 | the nested loops return the field or the first error that the declarative reading of the text gives; the CronMeaning rows say what that is, form by form |
| CronFields.SegmentsExtend | services/api/src/schedules/cron.ts:41-63 | segments are judged left to right: the first bad one decides the error |
| CronFields.FieldIsUnion | services/api/src/schedules/cron.ts:36-66 | a field is accepted exactly when its segments are, is in range and not empty, so the emptiness error is unreachable |
| CronMeaning.ValueMeans | services/api/src/schedules/cron.ts:59-60 | a number or a name in range selects exactly its value, 7 as Sunday for weekdays |
| CronMeaning.SteppedValueMeans | services/api/src/schedules/cron.ts:59-62 | `a/n` selects every n-th value from a to the maximum |
| CronMeaning.SpanMeans | services/api/src/schedules/cron.ts:52-57 | `a-b` selects everything from a to b |
| CronMeaning.SteppedSpanMeans | services/api/src/schedules/cron.ts:52-62 | `a-b/n` selects every n-th value from a to b |
| CronMeaning.StarMeans | services/api/src/schedules/cron.ts:40-51 | `*` is a wildcard and selects the whole range |
| CronMeaning.SteppedStarMeans | services/api/src/schedules/cron.ts:40-51 | `*/n` is a wildcard too, and selects every n-th value from the minimum |
| CronMeaning.ListMeans | services/api/src/schedules/cron.ts:40-63 | a comma list selects the union of its parts, or fails with the error of the first bad one; it is a wildcard exactly if it begins with `*/` |
| CronMeaning.FiveStars | services/api/src/schedules/cron.ts:76-88 | five stars select minutes 0 to 59, hours 0 to 23, days 1 to 31, months 1 to 12 and weekdays 0 to 6 |
| CronMeaning.NamesMean | services/api/src/schedules/cron.ts:16-22 | the months are named from 1 and the weekdays from 0, in those two fields only |
| CronMeaning.EmptyExactly | services/api/src/schedules/cron.ts:37-38 | a field of white space only is the empty field, and nothing else is |
| CronMeaning.BadValue | services/api/src/schedules/cron.ts:28-34 | a text that reads as no integer, and one out of range, with their errors |
| CronMeaning.BadStepText | services/api/src/schedules/cron.ts:44-45 | a step that is no integer or not between one and the size of the range, whatever it is applied to |
| CronMeaning.SteppedBad | services/api/src/schedules/cron.ts:42-60 | with a good step the error is that of what it is applied to |
| CronMeaning.NothingStepped | services/api/src/schedules/cron.ts:42-43 | a slash with nothing before it is an invalid segment |
| CronMeaning.SteppedTwice | services/api/src/schedules/cron.ts:42-43 | so are two slashes |
| CronMeaning.HalfSpan | services/api/src/schedules/cron.ts:53-54 | a span that lacks an end is an invalid range |
| CronMeaning.LongSpan | services/api/src/schedules/cron.ts:53-54 | so is one with more than two ends |
| CronMeaning.BadSpan | services/api/src/schedules/cron.ts:55-56 | a span with a bad end has the error of that end, the first one first |
| CronMeaning.DescendingSpan | services/api/src/schedules/cron.ts:57 | a span whose ends descend must be ascending |
| CronMeaning.EmptyPart | services/api/src/schedules/cron.ts:42-43 | an empty part of a list is an invalid segment, unless an earlier part is bad |
| CronFields.ParseCron | services/api/src/schedules/cron.ts:76-88 | five fields parsed in order with their ranges and aliases, first error wins |
| CronFields.AcceptedInRange | services/api/src/schedules/cron.ts:76-88 | every accepted expression selects something in each field and nothing out of range, weekdays 0 to 6 |
| CronFields.Normalize | services/api/src/schedules/cron.ts:68-74 | accepts exactly the expressions of five words that each parse in lower case, and returns the normal form |
| CronFields.NormalizeIdempotent | services/api/src/schedules/cron.ts:68-74 | normalising twice is normalising once, for every text |
| CronFields.NormalizeKeepsMeaning | services/api/src/schedules/cron.ts:68-74 | the normal form selects the values that the words as written select |
| CronSearch.NextOccurrence | services/api/src/schedules/cron.ts:113-136 | the search returns the least whole minute of the window at a selected minute, hour and month that satisfies the day rule, and fails exactly when there is none; the rule is spelled out on the answer: the weekday if the day of the month is a wildcard, the day of the month if only the weekday is, else either; for any zone |
| CronSearch.NextCronOccurrence | services/api/src/schedules/cron.ts:100-137 | the same for an expression as text, with its parse errors and then the error for an unknown time zone |
| CronSearch.FiresByEither | services/api/src/schedules/cron.ts:122-128 | with both day fields restricted an expression fires exactly when it fires with one or the other left open |
| CronSearch.EarlierOfBoth | services/api/src/schedules/cron.ts:113-136 | so its next occurrence is the earlier of those two searches' answers, and it has none exactly if neither has |
| CronSearch.ChainEnumerates | services/api/src/schedules/cron.ts:113-135 | feeding each result back lists every firing minute once, in order |
| CronSearch.UtcOfTimestamp | services/api/src/schedules/cron.ts:116-121 | UTC shows the date, time and weekday a timestamp was made from |
| CronSearch.TimestampOfUtc | services/api/src/schedules/cron.ts:116-121 | every whole minute is the timestamp of the date and time UTC shows for it |
| CronSearch.SearchSucceedsExactly | services/api/src/schedules/cron.ts:113-136 | in UTC the search succeeds, from any instant, unless the weekday is wildcard, the day of the month is not, no yearly date is selected and 29 February is not selected or not in the window; in exactly those cases it fails |
| CronSearch.LeapDayReached | services/api/src/schedules/cron.ts:113-115 | away from a century without a leap day the window always holds a 29 February |
| CronSearch.LeapDayMissedAcross2100 | services/api/src/schedules/cron.ts:113-136 | from 1 March 2096 a schedule for 29 February alone has no occurrence |
| EventLog.AppendAllKeepsNumbering | services/api/src/database/memory-repository.ts:102-121 | cursors count the log and sequences count within each aggregate, whatever is appended |
| EventLog.AppendAllKeepsContents | services/api/src/database/memory-repository.ts:102-121 | what is appended keeps its aggregate, kind and payload, in order |
| EventLog.SequencesAreConsecutive | services/api/src/database/memory-repository.ts:102-121 | an aggregate's sequences are 1 to n without gaps, in cursor order |
| EventLog.NumberedAscends | services/api/src/database/memory-repository.ts:115 | cursors strictly increase along the log |
| EventLog.LaterMember | services/api/src/database/memory-repository.ts:123-128 | reading returns exactly the workspace's events past the cursor |
| EventLog.LaterResumes | services/api/src/database/memory-repository.ts:123-128 | reading on from an event's cursor gives exactly what follows it |
| EventLog.PageIsFirst | services/api/src/database/memory-repository.ts:123-128 | a page is ascending, holds at most `limit` events, only ones asked for, the earliest of them, and all of them unless it is full |
| EventLog.PagesReassemble | services/api/src/database/memory-repository.ts:123-128 | pages of any positive size, each read from the last cursor, reassemble the whole log |
| EventLog.ReadingKeepsUp | services/api/src/database/memory-repository.ts:123-128 | with events appended in cursor order between the pages, what was read is always a gapless first part of what there is, and all of it exactly if the next page is empty |
| MobileState.UpsertStores | apps/mobile/src/state/relay.ts:22-26 | an upsert replaces the entry of that id in place or appends it, and ids stay unique |
| MobileState.LastWriteWins | apps/mobile/src/state/relay.ts:33-54 | folding an ordered log leaves in each collection exactly the last entity that an event of its kind carries for each id, and what was there under other ids |
| MobileState.RedeliveryIsHarmless | apps/mobile/src/state/relay.ts:33-54 | applying an ordered log with any overlapping re-delivery ends where applying it once ends |
| Repository.MemoryRepository.AppendEvent | services/api/src/database/memory-repository.ts:102-121 | the log grows by one event numbered by cursor and aggregate; nothing else changes |
| Repository.MemoryRepository.ListEvents | services/api/src/database/memory-repository.ts:123-128 | at most `limit` events, ascending, exactly the earliest of the workspace past the cursor, and all of them when fewer than `limit` come back |
| Repository.MemoryRepository.AppendEvents | services/api/src/database/memory-repository.ts:142-143 | a commit's events are appended in order and returned |
| Repository.MemoryRepository.CommitMessageRun | services/api/src/database/postgres-repository.ts:215-256 | a known key returns the first response, creates nothing and appends nothing; a new key stores message, run, job, events and response together |
| Repository.MemoryRepository.Claim | services/api/src/database/memory-repository.ts:153-176 | claims an oldest job that is due or whose lock is over five minutes old, and answers none exactly when there is none |
| Repository.MemoryRepository.CompleteJob | services/api/src/database/memory-repository.ts:178-182 | marks the job completed whoever holds it; an unknown id changes nothing |
| Repository.MemoryRepository.FailJob | services/api/src/database/memory-repository.ts:184-196 | queues the job again for the retry time or fails it, and drops its lock |
| Repository.MemoryRepository.ClaimDueSchedule | services/api/src/database/memory-repository.ts:198-209 | locks a due schedule with the earliest next time whose lock is absent or stale, and answers none exactly when there is none |
| Repository.MemoryRepository.ReleaseScheduleClaim | services/api/src/database/memory-repository.ts:211-213 | drops the lock, whoever holds it |
| Repository.MemoryRepository.PutSchedule | services/api/src/database/memory-repository.ts:70-77 | refuses an id of another workspace and changes nothing; otherwise stores the schedule and drops its lock |
| Repository.MemoryRepository.DeleteSchedule | services/api/src/database/memory-repository.ts:79-88 | removes the schedule and its lock |
| Repository.PausedNeverDue | services/api/src/database/memory-repository.ts:198-203 | a paused schedule is never due, whatever time it has stored |
| Repository.Oldest | services/api/src/database/memory-repository.ts:164 | an element of least rank |
| JobQueue.StepKeepsInv | services/api/src/worker.ts:139-158 | every step of every worker keeps each job's fields in agreement with its history |
| JobQueue.ClaimsAreSeparated | services/api/src/database/memory-repository.ts:153-196 | in every run two claims of a job are separated by a retry whose time had come or by a lock older than five minutes, and `attempts` is the number of claims |
| JobQueue.TimelyQueue | services/api/src/worker.ts:256-281 | if no processing outlasts its lock, a job is claimed at most three times, never by two workers at once, and completed and failed are final |
| JobQueue.CompletionIsFinalExactly | services/api/src/database/memory-repository.ts:178-196 | a completed job stays completed, in every continuation, exactly if no processing of it is under way |
| JobQueue.FinishIsFinalExactly | services/api/src/worker.ts:256-281 | completing a job is final exactly if whoever completes it is the only one processing it |
| JobQueue.ReopensExactly | services/api/src/worker.ts:256-281 | a completed or failed job can come back into the queue exactly if processing of it is under way with fewer than three attempts |
| JobQueue.LateFailureReopens | services/api/src/database/memory-repository.ts:184-196 | a run from the empty queue in which a late failure puts a completed job back |
| JobQueue.EnqueuedFrom | services/api/src/database/memory-repository.ts:153-165 | a queued job may be claimed exactly from its time on, in its workspace and under its kind |
| JobQueue.TakenFor | services/api/src/database/memory-repository.ts:153-176 | a claim counts an attempt under the worker's name and keeps everybody out until more than five minutes have passed |
| JobQueue.CompletedNever | services/api/src/database/memory-repository.ts:178-182 | a completed job may never be claimed |
| JobQueue.FailedUntil | services/api/src/worker.ts:277 | a failed job may be claimed again exactly half a second after the first attempt and a second after the second, and never after the third or a fatal one |
| JobQueue.HolderMayEnd | services/api/src/worker.ts:139-281 | whoever processes a job may complete it, fail or crash at any time, however late |
| Dispatcher.StepKeepsOneToOne | services/api/src/database/memory-repository.ts:134-151 | every step keeps keys, runs and jobs in correspondence and each run with exactly one creation event |
| Dispatcher.StepKeepsNeverEarlier | services/api/src/domain/relay-service.ts:590-597 | every step keeps stored next times at or after every due time committed or in progress; whether there is one is TimedExactly |
| Dispatcher.AtMostOncePerDueTime | services/api/src/worker.ts:75-86 | over every interleaving, crash point and lock expiry, a schedule and due time yield at most one message, run and job |
| Dispatcher.NextTimeNeverEarlier | services/api/src/domain/relay-service.ts:496-602 | a stored next time is never earlier than a due time already committed; that there is one is TimedExactly |
| Dispatcher.RunsJobsKeysCorrespond | services/api/src/database/postgres-repository.ts:215-256 | over every run, runs, jobs and keys are in one-to-one correspondence |
| Dispatcher.FirstResponseStays | services/api/src/database/memory-repository.ts:135-137 | a key that answered answers the same for ever, and committing under it again changes nothing |
| Occurrences.TimedExactly | services/api/src/domain/relay-service.ts:482 | in every run a stored schedule has a next time exactly if it is enabled and cron |
| Occurrences.AdvanceStoresNextTime | services/api/src/domain/relay-service.ts:590-597 | in every run an advance stores what the search answers for the handed-out copy's timing now, later than now and than the due time just committed, frees schedule and worker, and touches no other schedule |
| Occurrences.UpdateTimeExactly | services/api/src/domain/relay-service.ts:514-524 | an update keeps the stored time exactly if the schedule recurred with that timing before, and otherwise stores what the search answers now, or none |
| Occurrences.CreateTimeExactly | services/api/src/domain/relay-service.ts:482 | a schedule is created exactly with the time that the search answers now, or none if it does not recur |
| Occurrences.WriteStores | services/api/src/domain/relay-service.ts:496-531 | a created or updated schedule is stored as given and free, the others stay |
| Occurrences.DeleteRemoves | services/api/src/domain/relay-service.ts:533-540 | a deleted schedule is gone with its lock, the others stay |
| Occurrences.DueExactly | services/api/src/database/memory-repository.ts:198-209 | left alone, a schedule is due in its workspace exactly if it is enabled and cron, from its stored time on, except for five minutes after an unfinished dispatch |
| Occurrences.ClaimExcludes | services/api/src/database/memory-repository.ts:198-209 | a claimed schedule is due again exactly once more than five minutes have passed |
| Occurrences.ReleaseGivesBack | services/api/src/worker.ts:81-84 | a failed dispatch gives its schedule back, due as before |
| Occurrences.CrashForgets | services/api/src/worker.ts:75-86 | a crash loses what the worker held and nothing else; a lock it took stays until it is stale |
| Occurrences.SendCommits | services/api/src/database/postgres-repository.ts:215-256 | a commit under a new key stores the message, its run and its job; under a known one it changes nothing |
| Occurrences.KeepsRecurring | services/api/src/domain/relay-service.ts:590-597 | as long as nobody updates or deletes it, an enabled cron schedule keeps its timing and a next time, however often it is dispatched |
| Occurrences.SomeClaimable | services/api/src/database/memory-repository.ts:198-209 | if anything is due, the schedule that has been due longest may be claimed |
| Occurrences.RoundServes | services/api/src/worker.ts:75-86 | claim, commit and advance is a possible run that commits the due time, stores the next one and frees schedule and worker |
| Occurrences.DispatchAll | services/api/src/worker.ts:60-63 | one idle worker can dispatch until nothing is due: all that was due is committed at its time and has its next one, the rest is unchanged |
| Occurrences.OccurrencesKeepComing | services/api/src/worker.ts:75-86 | from every reachable state, once time has passed, one idle worker gets an enabled cron schedule dispatched and its next time stored, later than the time it then is, if the search finds something for the stored schedules |
| Occurrences.FailingSearchBlocks | services/api/src/worker.ts:75-86 | if the search finds nothing for the schedule due first, a dispatcher that runs alone serves no other one, in any run |
| EventStream.Handler.SendEvent | services/api/src/app.ts:479-483 | an event at or before the cursor is dropped, any other is written and moves the cursor |
| EventStream.Handler.OnEvent | services/api/src/app.ts:484-487 | the listener buffers while replaying and sends afterwards |
| EventStream.Handler.SendRows | services/api/src/app.ts:488 | replaying rows sends them in order |
| EventStream.Handler.Resume | services/api/src/app.ts:488-490 | rows first, then everything buffered, then live |
| EventStream.DeliveredCursorsIncrease | services/api/src/app.ts:476-490 | in every interleaving, stored and published in any order, delivered cursors strictly increase past the requested one |
| EventStream.LiveClientMissesNothing | services/api/src/app.ts:476-490 | with events stored and published in cursor order and a backlog within the limit as the query runs, a live client has every published later event once and in order |
| EventStream.FewStoredMissesNothing | services/api/src/app.ts:476-490 | the same for every run in which at most 5,000 events are stored past the cursor when the replay query runs |
| EventStream.FewStoredIsEnough | services/api/src/app.ts:488 | at most 5,000 stored events past the cursor when the query runs keep the backlog within the limit |
| EventStream.ReplayCompleteExactly | services/api/src/app.ts:488-490 | with events stored and published in cursor order the replay is complete exactly when the backlog fits the limit |
| EventStream.TruncatedReplay | services/api/src/app.ts:479-490 | otherwise a live client has exactly the first 5,000 events of the backlog and everything published after the subscription; no other event of the backlog is ever delivered on that connection |
| Delivery.LiveClientIs | services/api/src/app.ts:476-490 | from the query on, in every interleaving and any order of publication, a live client is what sending the rows and then everything published since subscribing makes of it |
| Delivery.SentThenFlushed | services/api/src/app.ts:479-490 | ascending rows are all written, and of events in cursor order after them exactly those past the last row |
| Delivery.LiveClientHasExactly | services/api/src/app.ts:479-490 | with publication in cursor order a live client has exactly the rows and what was published past the last of them; it lacks nothing published exactly if what lies at or before the last row is a row |
| Delivery.NothingLostExactly | services/api/src/app.ts:476-490 | in a whole run with at most 5,000 events stored at the query and everything published in cursor order, a live client has every stored later event exactly if none at or before the last row became visible after the query |
| Delivery.LateCommitIsDropped | services/api/src/app.ts:484-490 | a run from the start in which an event that becomes visible after the query, below a replayed row, is dropped, though published in order |
| Delivery.BacklogOfAnySize | services/api/src/app.ts:488 | orderly runs from the start end in subscriptions with backlogs of every size, so replays that are cut off are reached |
| Delivery.ConnectionsAreGapless | services/api/src/app.ts:463-490 | a client that connects any number of times from its last cursor, each backlog within the limit, receives one list without gap or repetition, and all of it once live and everything is published |
| Frames.CutConcat | services/api/src/runtime/codex-runtime.ts:247-249 | cutting a text in two and carrying the tail over cuts the whole text |
| Frames.ChunkingIsInvisible | services/api/src/runtime/codex-runtime.ts:243-253 | any text reads the same however it is chunked, and the tail never holds a separator |
| Frames.ReaderGetsWhatWasWritten | services/codex-worker/src/server.ts:86-89 | from any chunking of written event and heartbeat frames the reader gets exactly the payloads, in order, with nothing left over |
| Frames.ReaderIsNeverAhead | services/api/src/runtime/codex-runtime.ts:243-253 | from any part of the stream it has a prefix of them |
| Frames.Reader.Feed | services/api/src/runtime/codex-runtime.ts:247-253 | one read keeps the unfinished tail and yields the payloads of the finished frames |
| Frames.PayloadExactly | services/api/src/runtime/codex-runtime.ts:251-252 | a frame's payload is what follows "data: " in its first line that begins so, if anything does |
| Frames.NoPayload | services/api/src/runtime/codex-runtime.ts:251-252 | and without such a line it has none |
| Frames.EventBuffer.Append | services/codex-worker/src/eventBuffer.ts:15-33 | events are numbered without gaps and the buffer holds the newest 10,000 |
| Frames.EventBuffer.After | services/codex-worker/src/eventBuffer.ts:35-37 | the part of the history past the cursor that is still held |
| Frames.ConnectionIsGapless | services/codex-worker/src/server.ts:86-88 | a connection is sent a gapless stretch of the history, complete exactly when nothing asked for had been dropped |
| Response.TurnConsumer.Append | services/api/src/runtime/codex-runtime.ts:224-231 | text goes to the content and to the active text part, opening one if there is none |
| Response.TurnConsumer.Upsert | services/api/src/runtime/codex-runtime.ts:232-239 | the tool part of that id is replaced in place or appended, and the active text part ends |
| Response.TurnConsumer.Edit | services/api/src/runtime/codex-runtime.ts:279-287 | output and changes reach only the data of the tool part of that id |
| Response.TurnConsumer.Process | services/api/src/runtime/codex-runtime.ts:256-289 | each kind of worker event has its effect on content, parts and emitted events; the content grows by exactly the event's delta, blank line or undelivered text |
| Response.TurnConsumer.ReadFrame | services/api/src/runtime/codex-runtime.ts:250-297 | one frame: events of other turns are skipped, failures stop, completion is noted |
| Response.TurnConsumer.ReadChunk | services/api/src/runtime/codex-runtime.ts:250-298 | a chunk is read to its end even when the turn completes within it |
| Response.TurnConsumer.Consume | services/api/src/runtime/codex-runtime.ts:240-309 | returns the content and parts of the events read if the turn completed, the content and the emitted deltas following TextLaw; fails on a failure event or an early end, and stops at the turn of the loop at which the signal is found aborted |
| Response.TextLaw | services/api/src/runtime/codex-runtime.ts:256-278 | after any events the content is the deltas in order, a blank line before each later agent message unless the text is empty or ends in one, and the text of a message that completes while there is none; the emitted deltas concatenate to the same without those texts |
| Response.ToolEventStores | services/api/src/runtime/codex-runtime.ts:53-86 | an item event stores the part of its tool, in place or at the end, with the status that the item dictates, announces it and changes nothing else |
| Response.ToolsFollowLastItem | services/api/src/runtime/codex-runtime.ts:232-278 | after any events a tool has a part exactly if some item event was about it, with the type and dictated status of the last one |
| Response.OutputAppended | services/api/src/runtime/codex-runtime.ts:279-283 | output is appended to the tool's, up to 100,000 characters, and nothing else changes |
| Response.TextGoesToOpenPart | services/api/src/runtime/codex-runtime.ts:224-231 | text goes to the open text part or starts a new one; a tool closes it |
| Response.OthersChangeNothing | services/api/src/runtime/codex-runtime.ts:256-297 | untyped items and events that only end or fail a turn change nothing |
| Response.ChangesReplaced | services/api/src/runtime/codex-runtime.ts:284-287 | reported changes replace the tool's, and nothing else changes |
| Response.DigitsDenote | services/api/src/runtime/codex-runtime.ts:233 | made-up tool ids carry the position in decimal digits |
| Response.NoneFatalExactly | services/api/src/runtime/codex-runtime.ts:290-297 | a turn fails on an error event or on being reported failed, and on nothing else |
| Response.OthersIgnored | services/api/src/runtime/codex-runtime.ts:254 | events of other threads and turns are as if they had not been there |
| Response.OwnAllRead | services/api/src/runtime/codex-runtime.ts:254 | and the turn's own are all read, in order |
| Response.ResultTextExactly | services/api/src/runtime/codex-runtime.ts:303 | the text of the result is the content without the white space around it, or a fixed text if there is nothing else |
| Response.TurnAgrees | services/api/src/runtime/codex-runtime.ts:221-289 | after every event the client's fold of what was emitted matches the server's parts up to text appended in silence |
| Response.ClientAgreesExactly | apps/mobile/src/hooks/useRelay.ts:18-40 | for every turn the text parts concatenate to the content, tool ids are unique, and the client's parts equal the server's after dropping empty and merging adjacent text, tools by id and status, exactly if nothing was appended in silence |
| Response.SilentExactly | services/api/src/runtime/codex-runtime.ts:272-278 | text is appended in silence exactly when a message completes with text while the content is empty |
| Response.RunsAreIndependent | apps/mobile/src/hooks/useRelay.ts:18-40 | however runs interleave in the log, each run's parts come from its own events |
| TaskForest.TaskService.ValidateParent | services/api/src/domain/relay-service.ts:624-649 | the loop answers the depth or the error of the recursive upward walk, and ends on any data |
| TaskForest.TaskService.CreateTask | services/api/src/domain/relay-service.ts:651-681 | a new task at the validated depth, or the error and no change |
| TaskForest.TaskService.UpdateTask | services/api/src/domain/relay-service.ts:683-710 | the patched task, re-validated only if its parent changes, or the error and no change |
| TaskForest.TaskService.DelegateTask | services/api/src/domain/relay-service.ts:712-731 | the parent is checked again and the hierarchy is left as it is |
| TaskForest.TaskService.RequestAgentHelp | services/api/src/domain/relay-service.ts:792-826 | a child with one less child budget than its parent, or the error and no change |
| TaskForest.ValidatedOnForest | services/api/src/domain/relay-service.ts:624-649 | on a forest a parent is accepted exactly if it exists, has room, is not below the task and is not too deep; the existing-cycle branch is unreachable |
| TaskForest.WalkStops | services/api/src/domain/relay-service.ts:635-642 | on any table the upward walk stops at the first task that is missing, is the target or was met before, and says which |
| TaskForest.PlaceExactly | services/api/src/domain/relay-service.ts:624-649 | on a forest a place is granted exactly if it is acceptable, one below the parent, and otherwise refused for the first reason in order |
| TaskForest.CreateExactly | services/api/src/domain/relay-service.ts:651-681 | exactly when a new task is stored, and as what |
| TaskForest.UpdateExactly | services/api/src/domain/relay-service.ts:683-710 | exactly when an update is stored, and as what: what the patch does not name stays |
| TaskForest.DelegateExactly | services/api/src/domain/relay-service.ts:712-731 | a task is delegated exactly if it is open and its place is still acceptable |
| TaskForest.HelpExactly | services/api/src/domain/relay-service.ts:792-826 | exactly when a help request creates a child, and with which budget |
| TaskForest.StepExactly | services/api/src/domain/relay-service.ts:651-826 | each operation takes effect, or none if it is refused; a delegated child gets its parent's whole child budget |
| TaskForest.StepPlaces | services/api/src/domain/relay-service.ts:651-731 | every successful operation writes one task, to a place that exists, keeps the forest and has room |
| TaskForest.HierarchyIsForest | services/api/src/domain/relay-service.ts:635-642 | after any operations parents exist, nothing is its own ancestor, no task has more than eight children and the walk finds no existing cycle |
| TaskForest.SubtreesAreBounded | services/api/src/domain/relay-service.ts:643-647 | if only leaves are moved, the stored depth is the number of ancestors and a subtree has at most (8^(D+1)-1)/7 tasks |
| TaskForest.MoveKeepsDepthsExactly | services/api/src/domain/relay-service.ts:694 | an update keeps all stored depths right exactly if the task has no children, stays under its parent, or goes where a task of its depth belongs |
| TaskForest.MoveLeavesDepthWrong | services/api/src/domain/relay-service.ts:683-710 | a run from the empty table in which moving a task with a child leaves the child with a wrong depth |
| TaskForest.HelpChainsAreShort | services/api/src/domain/relay-service.ts:806-826 | with unraised budgets a chain of help requests is no longer than the first task's child budget |
| TaskViews.IsDescendant | apps/desktop/src/renderer/state/relay-state.ts:172-184 | ends on circular and dangling data, and answers exactly whether parent links lead to the root |
| TaskViews.TaskProgress | apps/desktop/src/renderer/state/relay-state.ts:164-170 | counts exactly the tasks at or below the root, and the completed among them |
| TaskViews.ChildrenAre | apps/desktop/src/renderer/state/relay-state.ts:158-162 | `taskChildren` lists exactly the tasks with that parent, or without one, each once |
| TaskViews.ChildrenInOrder | apps/desktop/src/renderer/state/relay-state.ts:158-162 | children are in creation order |
| TaskViews.ChildrenKeepTies | apps/desktop/src/renderer/state/relay-state.ts:158-162 | children created together keep the order of the list |
| TaskViews.ProgressAddsUp | apps/desktop/src/renderer/state/relay-state.ts:164-170 | a task's progress is its own plus the sum over `taskChildren`, exactly if it is not below itself |
| TaskViews.TaskList.Visit | apps/mobile/src/screens/TasksScreen.tsx:126-131 | a visit appends, for each child in turn, the child and everything visited below it |
| TaskViews.TaskList.Order | apps/mobile/src/screens/TasksScreen.tsx:124-135 | ends on any data with unique ids and leaves the depth-first order followed by the rest |
| TaskViews.FromRootsMembers | apps/mobile/src/screens/TasksScreen.tsx:132 | the visits from the top list exactly the tasks whose parent links end at a root |
| TaskViews.OrderedIsPermutation | apps/mobile/src/screens/TasksScreen.tsx:124-135 | the result is a permutation of the tasks, rooted tasks first, the others after them in list order |
| TaskViews.SubtreeFollows | apps/mobile/src/screens/TasksScreen.tsx:126-131 | each rooted task is followed at once by exactly the tasks below it |
| Computers.StepAgrees | services/api/src/computers/computer-service.ts:135-330 | every operation keeps mode, lease, holder and assignment in agreement, whatever the manager answers |
| Computers.ModesAlwaysAgree | services/api/src/computers/computer-service.ts:63-330 | in every run user mode holds exactly with a lease held by the owner, and agent and watch modes follow the assigned agent |
| Computers.StepHolds | services/api/src/computers/computer-service.ts:229-319 | while a lease runs every operation but its return keeps the owner in control and refuses agents |
| Computers.TakeoverKeepsAgentsOut | services/api/src/computers/computer-service.ts:229-319 | from a takeover until return or expiry no agent command, navigation or desktop action reaches the manager, in any run |
| Computers.CommandActsExactly | services/api/src/computers/computer-service.ts:260-285 | exactly when a command reaches the manager, in terms of the stored record, for agents and for users |
| Computers.ControlChangesHands | services/api/src/computers/computer-service.ts:229-285 | after a takeover the owner's commands reach the manager exactly until the lease ends and agents' only after; after a return the assigned agent's do and users' do not |
| Computers.UseReachesOnly | services/api/src/computers/computer-service.ts:287-319 | navigation and desktop actions reach only a running browser, and for an agent only its own or a shared one that no user controls |
| Computers.UseActsExactly | services/api/src/computers/computer-service.ts:287-319 | exactly when a navigation or desktop action on a computer that is found reaches the manager: the actor may try, the computer runs a browser as listed or as woken, and for an agent it is shared or its own with no lease running; user or agent, asked for or found |
| Computers.FoundIsNewest | services/api/src/computers/computer-service.ts:112-118 | the search finds the newest of the computers that are shared after the listing |
| Computers.UseFindsNothing | services/api/src/computers/computer-service.ts:112-121 | a user for whom no computer is found is told so |
| Computers.UseSharedExactly | services/api/src/computers/computer-service.ts:84-121 | exactly when an agent that found none acts on the shared computer that the second listing finds |
| Computers.UseNewExactly | services/api/src/computers/computer-service.ts:84-121 | exactly when it acts on a new one |
| Computers.OwnerUsesWhatItTook | services/api/src/computers/computer-service.ts:229-319 | after a takeover the owner's navigations and desktop actions reach the manager at any time, an agent's only once the lease has ended |
| Computers.ActsExactly | services/api/src/computers/computer-service.ts:295-302 | and the refusal otherwise, first reason first |
| Computers.CommandRefusedWith | services/api/src/computers/computer-service.ts:260-275 | a command is refused for the first reason in the order of the code |
| Computers.ControlGrantedExactly | services/api/src/computers/computer-service.ts:229-258 | exactly who may take and return control of what |
| Computers.CreationRefusedWith | services/api/src/computers/computer-service.ts:135-184 | a creation is refused for the first reason in the order of the code |
| Computers.NewRecordIs | services/api/src/computers/computer-service.ts:156-177 | the record of a new computer, field by field; the others stay as listed |
| Computers.RemovedExactly | services/api/src/computers/computer-service.ts:321-330 | exactly when a computer is removed |
| Computers.ReadsRefresh | services/api/src/computers/computer-service.ts:200-227 | fetching refreshes one record, a listing every one, and the rest stays |
| Computers.CreationAddsAtMostOne | services/api/src/computers/computer-service.ts:135-184 | a failed creation leaves no record, a successful one adds the new record unless the shared browser is reused |
| Computers.AgentGetsOwnOrShared | services/api/src/computers/computer-service.ts:139-154 | an agent that creates a computer gets its own or the shared one |
| Computers.AtMostOneBrowser | services/api/src/computers/computer-service.ts:145-150 | with a manager that reports no browser where it was given none, at most one browser record exists in every run |
| Computers.ReplySafeExactly | services/api/src/computers/computer-service.ts:51-61 | an answer about a record keeps one browser, whatever else is stored, exactly if it does not make the record a browser |
| Computers.StartSafeExactly | services/api/src/computers/computer-service.ts:135-184 | creating a plain computer keeps one browser, whatever else is stored, exactly if one of its guards refuses it, it does not start under its id, or no browser is reported |
| Computers.DishonestManagerSharesTwo | services/api/src/computers/computer-service.ts:200-215 | a run from the empty table in which two plain computers reported as browsers become two shared computers |
| Computers.ComputerService.ListAll | services/api/src/computers/computer-service.ts:200-215 | the loop refreshes every record once: shared browsers first, then the manager's answer, then the lease |
| Computers.ComputerService.Fetch | services/api/src/computers/computer-service.ts:217-227 | the same for one record, or not found |
| Computers.ComputerService.Wake | services/api/src/computers/computer-service.ts:98-110 | a stopped computer takes over what the manager reports on starting it |
| Computers.ComputerService.CreateSession | services/api/src/computers/computer-service.ts:135-184 | checks in the order of the code, reuse of the shared computer, and no record left behind by a failed start |
| Computers.ComputerService.TakeControl | services/api/src/computers/computer-service.ts:229-243 | a user takes a running computer until now plus the lease |
| Computers.ComputerService.ReturnControl | services/api/src/computers/computer-service.ts:245-258 | control goes back to the assigned agent or to watching |
| Computers.ComputerService.Resolve | services/api/src/computers/computer-service.ts:112-118 | the computer asked for, the shared one, or a new shared one for an agent |
| Computers.ComputerService.ResolveBrowser | services/api/src/computers/computer-service.ts:112-121 | that computer, woken if it is stopped and the actor may wake it |
| Computers.ComputerService.UseBrowser | services/api/src/computers/computer-service.ts:287-319 | a navigation or desktop action with its wake-up and its refusals in order, addresses that are not http or https included |
| Computers.ComputerService.RunCommand | services/api/src/computers/computer-service.ts:260-285 | a command with its refusals in order |
| Computers.ComputerService.Delete | services/api/src/computers/computer-service.ts:321-330 | removal by a user or the assigned agent |
| BrowserLock.BrowserActions.Enter | services/sandbox-manager/src/sandboxService.ts:276-278 | a call takes the queue's promise and leaves its own |
| BrowserLock.BrowserActions.Begin | services/sandbox-manager/src/sandboxService.ts:279 | an action begins exactly when the promise waited for is resolved |
| BrowserLock.BrowserActions.End | services/sandbox-manager/src/sandboxService.ts:280-284 | returning or throwing resolves the call's own promise |
| BrowserLock.RunKeepsOrder | services/sandbox-manager/src/sandboxService.ts:275-285 | in every interleaving the calls that ended are the first ones, at most the next is acting, and progress counts beginnings and ends |
| BrowserLock.OneActionInOrder | services/sandbox-manager/src/sandboxService.ts:275-285 | at most one action at a time, begun in arrival order |
| BrowserLock.EveryoneIsServed | services/sandbox-manager/src/sandboxService.ts:275-285 | the lock never gets stuck, and a caller has ended exactly when two steps for it and each earlier one have happened, however many call in between |
| JsonRpc.StepKeepsInv | services/codex-worker/src/jsonRpcClient.ts:44-119 | every request, line, timeout and exit keeps table, timers and outcomes in agreement |
| JsonRpc.IdsAreNeverReused | services/codex-worker/src/jsonRpcClient.ts:44-56 | a new id was never used before and is not used again |
| JsonRpc.LeavesAtMostOnce | services/codex-worker/src/jsonRpcClient.ts:44-119 | each request is in the table, with its timer, until it leaves once and is settled |
| JsonRpc.ClosedForEver | services/codex-worker/src/jsonRpcClient.ts:111-119 | after close, in every continuation, the table is empty and every request has its final outcome |
| JsonRpc.DuplicatesAreIgnored | services/codex-worker/src/jsonRpcClient.ts:90-95 | an answer to a request that left the table changes nothing, however late |
| JsonRpc.AnswerSettlesItsRequest | services/codex-worker/src/jsonRpcClient.ts:89-103 | an answer settles exactly the request of its numeric id; any other id changes nothing |
| JsonRpc.SettledExactly | services/codex-worker/src/jsonRpcClient.ts:44-119 | a step settles a request exactly if its write fails, it is answered, times out or the process ends while it waits, with that outcome |
| JsonRpc.WaitsExactly | services/codex-worker/src/jsonRpcClient.ts:44-119 | a request waits, with its timer, from when it is sent, a failed write included, exactly until one of the other causes |
| JsonRpc.TimesOutWhileWaiting | services/codex-worker/src/jsonRpcClient.ts:49-52 | a request may time out exactly while it waits |
| JsonRpc.AnnouncedExactly | services/codex-worker/src/jsonRpcClient.ts:79-119 | what each step announces: invalid JSON, requests and notifications of the other side, the end |
| JsonRpc.JsonRpcLineClient.Send | services/codex-worker/src/jsonRpcClient.ts:44-56 | refused once closed; a failed write rejects the request but leaves its entry and timer |
| JsonRpc.JsonRpcLineClient.HandleLine | services/codex-worker/src/jsonRpcClient.ts:79-109 | answers, requests and notifications told apart in the order of the code |
| JsonRpc.JsonRpcLineClient.Expire | services/codex-worker/src/jsonRpcClient.ts:49-52 | a timeout removes the entry and rejects |
| JsonRpc.JsonRpcLineClient.RejectEach | services/codex-worker/src/jsonRpcClient.ts:114-117 | every waiting request loses its timer and is rejected, unless already settled |
| JsonRpc.JsonRpcLineClient.Shut | services/codex-worker/src/jsonRpcClient.ts:111-119 | the first close empties the table; later ones change nothing |

## Left out

- CronFields.NormalizeKeepsMeaning: JavaScript's `Number` is a parameter, assumed only to ignore letter case; lower case covers ASCII letters.
- CronSearch.NextOccurrence: the zone is any function from timestamps to local times, and timestamps are unbounded, so the year limits of `Date` are not modelled.
- EventLog.PagesReassemble: the log ascends by cursor, as the in-memory one does; with late commits (see LiveClientMissesNothing) a page read before such a commit does not hold it.
- Repository.MemoryRepository.Claim: between jobs of equal creation time any may be taken, where the code takes the first in map order.
- Repository.MemoryRepository.ClaimDueSchedule: between schedules of equal next time any may be taken, where the code takes the first in map order.
- Repository.Oldest: elements of equal rank are interchangeable, because maps here have no order.
- Dispatcher.AtMostOncePerDueTime: operation keys are structured values, so a client key that spells the text of a schedule key is not modelled.
- Dispatcher.NextTimeNeverEarlier: computing and writing the next time is one step, and so is `updateSchedule`; with separate steps an older copy can be written over a newer one.
- Occurrences.OccurrencesKeepComing: that such a run exists, not that workers take turns fairly; a poll of the code dispatches at most 25 schedules, so the run may span several polls.
- Occurrences.FailingSearchBlocks: for one dispatcher that does not crash; a crash leaves the lock for five minutes, in which others are served.
- EventStream.FewStoredMissesNothing: assumes that events become visible in cursor order, like LiveClientMissesNothing.
- EventStream.LiveClientMissesNothing: assumes that events become visible in cursor order. The in-memory repository does that; in Postgres the cursor is drawn before the commit (`services/api/src/database/migrations/001_initial.sql:76`), so a lower cursor can become visible later, and NothingLostExactly says when something is then lost. One connection (ConnectionsAreGapless composes several); the hub's listener sets (`services/api/src/events.ts`) appear only as delivery of each published event to the handler.
- Frames.ReaderGetsWhatWasWritten: payloads are texts without line breaks; JSON and UTF-8 decoding are not modelled.
- Response.ClientAgreesExactly: tool data is compared by id and status only, because output and patch updates change it on the server without a new part being emitted; one ordered fold per run, not a re-subscription from a snapshot cursor.
- Response.TurnConsumer.Edit: output is clipped as in the code; other fields of tool data are opaque.
- TaskForest.TaskService.CreateTask: checks that agents and the conversation exist are not modelled.
- TaskForest.TaskService.DelegateTask: the lookups of the agents and the change of owner are not modelled.
- TaskForest.TaskService.RequestAgentHelp: the lookups of the agents, the refusal of a request to oneself and the conversation are not modelled.
- TaskForest.TaskService.UpdateTask: checks of agents, conversations and text fields, and the events emitted, are not modelled; each operation is atomic.
- TaskForest.SubtreesAreBounded: moving a task with children leaves its descendants' stored depths as they were; MoveKeepsDepthsExactly says when that matters.
- TaskViews.TaskProgress: task ids are unique and not empty.
- Computers.ComputerService.CreateSession: of several shared computers created at the same time any may be found, where the code takes the first in repository order; addresses, update times and emitted events are not modelled.
- Computers.ComputerService.ListAll: the sorted list it returns is not modelled, only the refreshed table.
- Computers.TakeoverKeepsAgentsOut: operations run one at a time; the shared promise of concurrent provisioning is not modelled.
- BrowserLock.EveryoneIsServed: an action that never ends holds the lock for ever, as in the code.
- JsonRpc.JsonRpcLineClient.Shut: the order in which waiting requests are rejected is left open.
- The worker's poll loop, its concurrency limit and its abort controllers (an abort reaches a turn only as TurnConsumer.Consume's parameter); the queue and dispatcher models allow any number of workers instead.
- "Interrupted is final" for runs: the worker writes statuses from an earlier copy (`services/api/src/worker.ts:167-168`), so it does not hold in every interleaving.
- Rendering, connectors, tokens, push notifications, containers, HTTP and file system calls, schema validation beyond numeric limits, SQL text, time-zone data.
