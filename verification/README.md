# Meerkit: a verified model

A Dafny model of the parts of Meerkit where several functions, or the two ends of a protocol, have to
agree. `dafny verify dfyconfig.toml` checks all of it.

| files | what they model |
|---|---|
| `Unicode`, `ResponseChunks`, `CommandTable`, `AgentProtocol`, `AgentAnswers` | a browser result cut into UTF-16 pieces by the extension and put together from UTF-8 by the host, and the host's table of commands under every interleaving of callers, reader, canceller and closer, up to the answer each caller gets |
| `WebStorage`, `StorageText`, `DebuggerSessions` | copying web storage within byte limits, and its serialized form, and the three nested counts over one attached debugger |
| `SessionClients`, `SessionRequests`, `RequestAnswers`, `SessionCaptures`, `CaptureOrder`, `LockOrder` | the plugin SDK: the regions under its client's lock, its request table and the answers, its network captures and the order of their events, its locks |
| `Schedules`, `SchedulerTicks` | the next times of a monitor, in one step or as a batch, and the scheduler's tick |
| `Samples`, `Slope`, `Trends`, `TrendVerdicts`, `StatusItems`, `StatusHistory` | the status board: intervals, bars, trend rules, the window over a bounded fetch, rule states over whole runs |
| `ConfigBundles`, `ConfigImport`, `ConfigTransfer`, `ConfigPreview`, `ConfigExport` | validation, import, preview and export of the configuration in four linked tables |
| `RuntimeConfig`, `RuntimeRuns`, `RuntimeUpdates`, `PathUpdates` | the versioned runtime configuration in memory and in the store, over whole runs |
| `SignaturePayload` | the bytes a plugin signature covers |
| `Deliveries`, `DeliveryLoading`, `ConditionRuns`, `ConditionNotices` | records split into events and delivery rows and joined again, the condition state of a monitor, and which executions notify whom |
| `Alternation`, `Maps`, `Strings`, `Wrappers` | shared definitions |

Classes have one method per locked region or transaction of the code. Their contracts give the new
state as a function of the old; the results about whole runs are lemmas about these functions, and
further lemmas say without them what an operation achieves: which answer a caller gets, which rows
stand, when a rule holds. In the protocols a step is one locked region, or one action between two of
them, and a run is any sequence of steps whose guards hold.

Where the code does less than one would expect, the exact condition is proved:

- the host's limit of 64 MiB counts UTF-8 bytes, the extension's 60 MiB counts UTF-16 units
  (`AnsweredOnceByChunks`, `SentButRefused`);
- `ListRecords` falls back to 20 rows when it is asked for more than 100, so rules with windows above 21
  on items with a window above 101 never have a verdict (`FetchAgreesIff`, `NeverEnough`);
- a bundle's channel that is flagged as built in under another id is known to the validation, skipped by
  the import and, when replacing, announced as deleted (`ImportedReferencesResolve`,
  `ChannelPreviewIsEffectIff`);
- a runtime update whose row is written but cannot be read back leaves the manager unable to update that
  domain until an import or a restart (`UpdateMirrorsIff`, `NoUpdateWhileBehind`);
- a path update can lose another caller's change exactly if its caller names a version that does not
  exist yet when it reads (`PathUpdateNeverLosesIff`);
- events that waited for a capture can reach it after later ones, exactly if a reader publishes on it
  before they are through (`OrderKeptIff`, `OrderKeptIffNoHaste`);
- items called `__proto__` or stored under the empty name, and no others, are dropped from a copy of web
  storage that does not say so (`UntruncatedIsComplete`);
- a refused command to switch a debugger domain or the cache override off is swallowed: what it leaves on
  is on without need, and nothing else ever is (`StepTidyIff`, `TidyThroughoutIff`).

## Model

| member | source | states |
|---|---|---|
| Unicode.Utf8Cut | browser-extension/background.js:333-347 | cutting a text where no surrogate pair is separated cuts its UTF-8 form at the same place, for ill-formed text too |
| Unicode.DecodeUtf8 | browser-extension/background.js:333-347 | decoding the UTF-8 form of well-formed text, by the rules of RFC 3629, gives the text back, so the bytes delivered determine the text sent |
| Unicode.Utf8PrefixMonotone | browser-extension/background.js:956-966 | every further code unit adds at least one byte to the UTF-8 form of a prefix, inside a pair as well: what the bisection relies on |
| ResponseChunks.PlanResponse | browser-extension/background.js:324-338 | the splitter ends; it sends whole up to 512 KiB units, refuses more than 60 MiB, and otherwise cuts exactly at the boundaries: strictly increasing, from 0 to the length, each a full piece or one unit less |
| ResponseChunks.NextCut | browser-extension/background.js:334-336 | one cut: at most a full piece, at most one unit short of it unless it is the last, and never inside a surrogate pair, whatever the text |
| ResponseChunks.CutNeverSplits | browser-extension/background.js:333-338 | no boundary of the plan separates a surrogate pair |
| ResponseChunks.PieceCount | browser-extension/background.js:333-347 | a text the extension agrees to send takes at most 121 pieces, none empty, each at most 1.5 MiB in UTF-8: within the host's 128 |
| ResponseChunks.JoinedPayloads | browser-extension/background.js:340-346 | the UTF-8 forms of the pieces, joined in order, are the UTF-8 form of the whole text |
| CommandTable.AgentConnection.Register | internal/browser/manager.go:272-275 | a new command's channel enters the table; every other command is as before |
| CommandTable.AgentConnection.Release | internal/browser/manager.go:276-281 | a command that returns is in neither map, and every other command is as before |
| CommandTable.AgentConnection.TakeResponse | internal/browser/manager.go:776-782 | a complete response takes its command out of both maps and hands back the channel it had, if any |
| CommandTable.AgentConnection.HandleResponseChunk | internal/browser/manager.go:792-833 | for every message: what becomes of its command, which response is given on which channel, in each error case; assemblies stay valid, their keys stay keys of the pending table, other commands are untouched |
| CommandTable.AgentConnection.Drain | internal/browser/manager.go:910-919 | closing empties both maps and notifies exactly the channels that were in the table |
| CommandTable.ChunkKeepsSlotValid | internal/browser/manager.go:792-833 | a stored assembly has next = number of parts < total <= 128 and size = summed lengths within 64 MiB after every chunk, and a response is given exactly when a command leaves the table |
| CommandTable.AnsweredOnceByChunks | internal/browser/manager.go:792-833 | a text sent in pieces is answered exactly once: with its UTF-8 form if and only if that has at most 64 MiB, otherwise with the failure |
| CommandTable.SentButRefused | browser-extension/background.js:330 | the two limits disagree: a JSON string of 60 MiB units, quoted, that the extension sends and the host refuses, because it takes almost 180 MiB in UTF-8 |
| AgentProtocol.RunKeeps | internal/browser/manager.go:260-304 | every step of callers, reader, canceller and closer, in any order, keeps the invariant of the command table |
| AgentProtocol.CommandTableSafety | internal/browser/manager.go:260-304 | over every interleaving: stored assemblies are valid, a returned caller has nothing in the table, each channel accepts at most one value and no send finds one full |
| AgentProtocol.NoCommandStrandedByClose | internal/browser/manager.go:905-921 | once a close has emptied the table, each caller that waits has its answer in its channel or on the way, and one that has yet to write can only fail to |
| AgentProtocol.ChunksReassembled | internal/browser/manager.go:792-833 | the chunks of one command, among any steps of others, end with the joined payload on its way to the caller |
| AgentProtocol.ChunkedResponseRoundTrip | internal/browser/manager.go:792-833 | from splitter to host: a text of at most 60 MiB units and 64 MiB in UTF-8 is put on its way as its UTF-8 form, once, at the last piece, whatever else the connection does meanwhile |
| AgentAnswers.PlainResponseReachesCaller | internal/browser/manager.go:776-782 | a plain response to a command in the table, payload and error, is what its caller gets and nothing else, whatever happens next; while the caller waits it is in its channel or on the way |
| AgentAnswers.ChunkedResponseReachesCaller | internal/browser/manager.go:792-833 | so is the UTF-8 form of the text that the extension has sent in pieces |
| AgentAnswers.AnswersHaveCauses | internal/browser/manager.go:260-304 | over every run the answer with which a caller leaves is a response to this very command, what its chunks since it was registered amount to by their numbers, totals and sizes, or the cause of the close |
| AgentAnswers.ChunkHeld | internal/browser/manager.go:792-833 | an assembly holds exactly the chunks that have come, in order; the answer is their joined text exactly when they are complete, and each failure is told from the chunks alone |
| AgentAnswers.NewCommandIsAnswered | internal/browser/manager.go:260-304 | while the socket is open a new command can be registered, written and answered, and its caller then returns with that answer |
| WebStorage.Truncate | browser-extension/background.js:957-966 | the bisection ends with the same prefix that counting down from the whole value finds |
| WebStorage.CutIsSafe | browser-extension/background.js:957-966 | the cut of a value keeps the byte limit, is the whole value exactly when that fits, and separates no pair |
| WebStorage.CutIsLongest | browser-extension/background.js:957-966 | of a well-formed value the cut is the longest prefix within the limit that separates no pair |
| WebStorage.GetWebStorage | browser-extension/background.js:951-989 | for all keys and values the serialized result fits the total limit, provided the empty result does; its entries are the limited copies of the first keys, and possibly a safe prefix of the next one |
| WebStorage.CutLast | browser-extension/background.js:974-986 | the last value is cut to a prefix that separates no pair, or its key is dropped; the result fits the total limit and says that it is truncated; of a well-formed value the prefix is at most a pair and one unit shorter than any that fits, and the key is dropped only if none fits |
| WebStorage.UntruncatedIsComplete | browser-extension/background.js:944-988 | when the result does not say truncated, a stored value asked for is there in full if and only if its name is neither __proto__ nor empty |
| StorageText.ListingSizeIsBytes | browser-extension/background.js:974 | the size that is checked against the total limit is the number of UTF-8 bytes of the serialized result, with the escapes of section 25.5.2 of ECMA-262 |
| StorageText.TruncatedIffTooMuch | browser-extension/background.js:967-988 | the result does not say truncated if and only if every value asked for is within its limit and everything together, serialized, is within the total limit, and then it is everything |
| WebStorage.ProtoIsDroppedSilently | browser-extension/background.js:954-972 | an item named __proto__ is dropped and the result does not say so |
| WebStorage.EmptyNameIsDroppedSilently | browser-extension/background.js:953 | an item stored under the empty name is dropped and the result does not say so |
| DebuggerSessions.Debugger.AcquireDebugger | browser-extension/background.js:1068-1077 | one more reference, or a new session if the attachment succeeds; other tabs are untouched |
| DebuggerSessions.Debugger.ReleaseDebugger | browser-extension/background.js:1079-1086 | one reference less; the last one detaches the tab |
| DebuggerSessions.Debugger.AcquireNetworkDebugger | browser-extension/background.js:1093-1118 | the counts and what the browser has on after each of the failures of attaching, Network.enable and setCacheDisabled; a failed acquire leaves every count as it was |
| DebuggerSessions.Debugger.ReleaseNetworkDebugger | browser-extension/background.js:1120-1130 | the counts after a release, and what is on if a command that switches off is refused |
| DebuggerSessions.RunKeepsCounts | browser-extension/background.js:1068-1130 | over any matched run with failing commands the three counts are the numbers of holders and every holder has what it needs: no release disables another capture |
| DebuggerSessions.StepTidyIff | browser-extension/background.js:1093-1130 | from a tidy tab an operation leaves domain and cache override on exactly while they are needed, if and only if no command was refused that was to switch off what nobody needs any more |
| DebuggerSessions.TidyThroughoutIff | browser-extension/background.js:1068-1130 | over any matched run the tab is tidy at all times if and only if no operation of the run leaves something on |
| DebuggerSessions.NestedCounts | browser-extension/background.js:1068-1130 | after any matched run cacheDisabledReferences <= networkReferences <= references, the tab is attached exactly if references > 0, and domain and cache override are on whenever, and if no operation left something on only when, their counts are positive |
| DebuggerSessions.RefusedDisableLeavesDomainOn | browser-extension/background.js:1127-1129 | a refused Network.disable, which is swallowed, leaves the domain on while a plain holder keeps the tab |
| DebuggerSessions.RefusedEnableLeavesCacheOff | browser-extension/background.js:1120-1126 | a refused command to use the cache again leaves it bypassed for captures that did not ask for that |
| SessionCaptures.SessionCapture.Publish | sdk/browser.go:485-502 | an event is sent unless the capture is closed; a full queue closes it, once, with the overflow error, and asks for a stop; the send never meets a closed channel |
| SessionCaptures.SessionCapture.CloseOnce | sdk/browser.go:512-519 | the guarded close closes the channel if the overflow has not, and never twice |
| SessionCaptures.SessionCapture.SetError | sdk/browser.go:507-511 | a message is recorded, nothing else changes |
| SessionCaptures.SessionCapture.BeginStop | sdk/browser.go:541-545 | the stopping routine is started at most once |
| SessionCaptures.SessionCapture.FinishStop | sdk/browser.go:545-562 | the end of the routine closes stopDone for the first time |
| SessionCaptures.RunKeeps | sdk/browser.go:304-562 | every step of readers, starters, publishers, closers, stoppers and ending streams keeps the invariant that says where each event is |
| SessionCaptures.CaptureSafety | sdk/browser.go:447-562 | over every interleaving: the event channel is closed exactly if the capture is marked closed, and once; stopDone at most once; an event reaches no capture twice and no two captures, orphaned or live; the consumer has received what was sent, in order, but for what waits in the channel; an overflow leaves an error to report |
| SessionCaptures.ClosedIsFinal | sdk/browser.go:485-502 | nothing is sent on a capture after it has been closed |
| SessionCaptures.TakenGetsNothingNew | sdk/browser.go:348-354 | a capture that is not in the client's map gets no event that arrives later |
| SessionCaptures.StopEndsCapture | sdk/browser.go:348-354 | a stop takes the capture of its session out of the map, so that no event that arrives later reaches it, and no other capture |
| SessionCaptures.StreamEndCloses | sdk/browser.go:360-378 | the end of the stream in force closes every capture in the map before the client's lock is free again, and none of them gets an event that arrives later |
| CaptureOrder.OrderKeptIff | sdk/browser.go:324-341 | for every run, with any number of readers: what was sent on a capture is in the order of arrival if and only if no event of it was still on its way when a later one was sent |
| CaptureOrder.OrderKeptWithoutHaste | sdk/browser.go:453-462 | with one reader at a time, if no reader publishes on a capture while StartNetworkCapture still has orphans to publish on it, its events come in the order of arrival |
| CaptureOrder.OrderKeptIffNoHaste | sdk/browser.go:453-462 | and on a capture that has stayed open and got all its events they do so in no other case |
| CaptureOrder.LiveEventReaches | sdk/browser.go:330-341 | an event that arrives for a session with a capture is sent on that capture, unless the capture is closed first |
| CaptureOrder.WaitingEventReaches | sdk/browser.go:453-462 | so is each event that waited for the capture when it was started |
| CaptureOrder.OrderIsNotKept | sdk/browser.go:456-463 | a run in which an orphaned event reaches the capture after a later one |
| LockOrder.ProgramsOrdered | sdk/browser.go:254-562 | every routine, from attaching a stream to stopping a capture, takes the locks of client and captures in one fixed order and gives all of them back |
| LockOrder.SomebodyMoves | sdk/browser.go:304-562 | whenever a thread is not done, some thread can move: waiting leads up the order and ends |
| LockOrder.NoDeadlock | sdk/browser.go:304-562 | any number of routines in any interleaving never deadlock, and no thread asks for the client's lock while it holds another lock |
| SessionClients.SessionClient.Attach | sdk/browser.go:254-279 | a stream is attached only if none is |
| SessionClients.SessionClient.Begin | sdk/browser.go:403-410 | a request enters the table only while a stream is attached, and learns which |
| SessionClients.SessionClient.TakeResponse | sdk/browser.go:314-322 | a response takes its request out of the table and hands back its channel |
| SessionClients.SessionClient.RouteEvent | sdk/browser.go:330-341 | an event goes to its capture; without one the first 128 of a session are kept in order, further ones are lost |
| SessionClients.SessionClient.Adopt | sdk/browser.go:453-457 | a new capture enters the map and takes all events kept for it, in order |
| SessionClients.FirstAreKept | sdk/browser.go:330-341 | until its capture is started or the stream ends, a session keeps the first 128 of its events, in order, whatever else happens to the client, and this is what the capture takes over |
| SessionClients.SessionClient.Disconnect | sdk/browser.go:360-378 | the end of the attached stream empties all three maps, answers every outstanding request and closes every capture; the end of another stream changes nothing |
| SessionRequests.RunKeeps | sdk/browser.go:304-435 | every step of callers, readers of old and new streams and disconnects keeps the invariant of the request table; a caller that gives up does so in two steps |
| SessionRequests.RequestTableSafety | sdk/browser.go:360-435 | over every interleaving: outstanding requests imply an attached stream, a caller that has returned has nothing in the table, every channel still in the table is empty, so the send under the lock never blocks, and no reader finds a channel full or answers one twice |
| SessionRequests.EveryRequestReleased | sdk/browser.go:360-435 | no request is stranded, not even one whose caller is giving up: while its stream lasts it is in the table or its answer is there or on the way, and once the stream has ended it has left the table and a waiting caller can return |
| RequestAnswers.ResponseReachesCaller | sdk/browser.go:314-322 | the response that a reader has for an outstanding request is what its caller gets and nothing else, whatever happens next |
| RequestAnswers.EndReachesCaller | sdk/browser.go:368-371 | a caller whose stream ends while its request is outstanding gets to know that and nothing else |
| RequestAnswers.AnswersHaveCauses | sdk/browser.go:396-435 | over every run the answer with which a caller returns is a response to this very request, or the notice that a stream has ended, after the request was made |
| RequestAnswers.NewRequestIsAnswered | sdk/browser.go:254-279 | once a stream is attached a new request can be made, sent and answered, and its caller then returns with that answer |
| Schedules.NextScheduleTime | internal/runtime/runtime.go:575-595 | the first problem in the order of the checks, or the least instant after the given one of any of the schedules |
| Schedules.Compact | internal/runtime/runtime.go:621-631 | the compaction in place keeps the distinct elements of the part it has read, in order, and stops at the count or at the end |
| Schedules.NextScheduleTimes | internal/runtime/runtime.go:597-632 | the batch form: no problem, then exactly count instants, each the earliest after the one before: what repeating the single step gives |
| Schedules.IterationIsFirst | internal/runtime/runtime.go:597-632 | these instants increase strictly, each is an instant of some schedule after now, and none up to the last is missing: they are the smallest of the union |
| Schedules.IterationUnique | internal/runtime/runtime.go:575-632 | two such lists agree, so the batch form equals iterating the single step |
| Schedules.NthComplete | internal/runtime/runtime.go:612-619 | collecting count instants per schedule misses no instant of that schedule up to the last collected |
| Schedules.DistinctIsIteration | internal/runtime/runtime.go:620-631 | the distinct candidates in order are the iteration of the single step |
| Schedules.CombinedIsSetShaped | internal/runtime/runtime.go:575-595 | the schedules of a monitor together behave like one schedule that fires exactly when one of them does |
| SchedulerTicks.Scheduler.Visit | internal/runtime/runtime.go:469-492 | one enabled and available monitor: its task is kept, replaced or left as it is if the new schedules are invalid, and it is due if its instant has come; other tasks are untouched |
| SchedulerTicks.Scheduler.Advance | internal/runtime/runtime.go:519-529 | a task whose instant has come is due and moves to its next instant after now |
| SchedulerTicks.Scheduler.SyncAndRun | internal/runtime/runtime.go:426-508 | a whole tick, for every list of monitors: each listed monitor that is enabled and available and has valid schedules has a task for them, whose next instant is the first after now, and no other monitor has a task or is due; the task of each id and whether it is due; exactly the enabled, unavailable monitors are paused; a failed listing changes nothing |
| SchedulerTicks.SignatureTells | internal/runtime/runtime.go:470-471 | lists of schedules without zero characters have the same signature only if they are the same, so an edited monitor gets a new task |
| SchedulerTicks.InvalidSchedulesWait | internal/runtime/runtime.go:469-481 | while the new schedules of a monitor are invalid it is not due, and the task for the old ones waits |
| SchedulerTicks.DueIffInstantPassed | internal/runtime/runtime.go:519-529 | a monitor is due at a tick if and only if it can run, its task is current, and an instant of its schedules lies after the base and not after the tick |
| SchedulerTicks.TickKeepsCurrent | internal/runtime/runtime.go:426-508 | after every tick the next instant of a task is the first one after its base |
| SchedulerTicks.InstantsUsedOnce | internal/runtime/runtime.go:426-529 | over any run of ticks that do not go back in time each due tick uses up at least one instant and none is used twice, across changes of zone and schedules |
| SchedulerTicks.NoInstantLost | internal/runtime/runtime.go:519-529 | while a monitor stays runnable with the same schedules and zone, each instant between the base of its task and the last tick is used up by exactly one due tick |
| SchedulerTicks.NoInstantLostFromStart | internal/runtime/runtime.go:426-529 | from the first tick that sees a monitor, newly or with new schedules or in a new zone, each later instant up to the last tick is used up by exactly one due tick, while it stays as it is |
| SchedulerTicks.RunSlots.Launch | internal/runtime/runtime.go:531-543 | a run starts exactly if fewer run than the limit; the counter is the number of live runs and never exceeds the largest limit there has been |
| SchedulerTicks.RunSlots.Finish | internal/runtime/runtime.go:543-548 | a run that ends gives its slot back |
| Slope.Accumulate | internal/statusboard/evaluator.go:305-314 | the loop computes the sums over x, y, x*y and x*x |
| Slope.LinearSlope | internal/statusboard/evaluator.go:305-320 | the quotient of the sums, or zero where the denominator is zero |
| Slope.DenominatorClosedForm | internal/statusboard/evaluator.go:315-318 | the denominator is n^2(n^2-1)/12 |
| Slope.GuardForFewValues | internal/statusboard/evaluator.go:316-318 | so the guard for a zero denominator fires exactly for at most one value |
| Slope.SlopeIsLeastSquares | internal/statusboard/evaluator.go:305-320 | with the matching intercept the slope minimises the sum of squared residuals over all lines, and no other line does |
| Slope.SlopeOfTilted | internal/statusboard/evaluator.go:305-320 | adding a line a + b*i to the values adds b: vertical shifts change nothing |
| Slope.SlopeOfLine | internal/statusboard/evaluator.go:305-320 | on the points of a line a + b*i the slope is exactly b |
| Samples.ValidateThresholds | internal/statusboard/service.go:420-450 | accepts exactly lists with valid levels, labels and colours, bounds on all intervals but the last, strictly increasing; missing colours are filled in and nothing else changes |
| Samples.MatchThreshold | internal/statusboard/evaluator.go:182-190 | the first interval whose bound is not below the number |
| Samples.ThresholdsPartition | internal/statusboard/evaluator.go:182-190 | accepted intervals partition the numbers: every number lies in exactly one, and that one matches |
| Samples.Range | internal/statusboard/evaluator.go:193-203 | the least and the greatest number of the samples, or nothing if no sample is numeric |
| Samples.ScaleNumericSamples | internal/statusboard/evaluator.go:192-214 | in place: only heights of numeric samples change, to the position of the number between the least and the greatest |
| Samples.HeightsKeepOrder | internal/statusboard/evaluator.go:192-214 | heights lie between 10 and 100, the extremes get them, and one number is less than another exactly if its bar is lower |
| Trends.BuildSamples | internal/statusboard/evaluator.go:13-21 | one sample per record, then scaled |
| Trends.NumbersAreKnown | internal/statusboard/evaluator.go:46-61 | with accepted intervals a numeric sample is unknown exactly if the record has no number |
| Trends.EvaluateTrend | internal/statusboard/evaluator.go:216-271 | for all rules and samples the verdict, whose meaning the next rows give: window incomplete, unknown sample, non-numeric sample, zero baseline, unsupported type, or a decision with its measure |
| TrendVerdicts.DeterminedIff | internal/statusboard/evaluator.go:216-271 | there is a verdict exactly if there are enough samples, the last ones are all known and, for a rule about numbers, numeric, and a change in percent does not start at zero |
| TrendVerdicts.ComparisonDecides | internal/statusboard/evaluator.go:290-303 | a rule about numbers holds exactly if the measure is above, not below, below or not above the threshold, as its operator says, and never with another operator |
| TrendVerdicts.NumberMeasured | internal/statusboard/evaluator.go:242-262 | the measure is the average of the last numbers, the difference of the last and the first, also in percent of the first, or their slope |
| TrendVerdicts.SlopeFits | internal/statusboard/evaluator.go:263-266 | that slope is the slope of a line that fits the last numbers better than any other |
| TrendVerdicts.CountDecides | internal/statusboard/evaluator.go:228-241 | the consecutive rule holds if all of the last samples are failures, the counting rule if at least the minimum is, and the measure is their number |
| TrendVerdicts.OppositeOperators | internal/statusboard/evaluator.go:290-303 | gt and lte, lt and gte are complementary, on the same measure |
| TrendVerdicts.HigherAverage | internal/statusboard/evaluator.go:242-247 | raising all numbers raises the average as much, so it can only switch on a rule that waits for a high average, and only off one that waits for a low one |
| TrendVerdicts.ShiftedSamples | internal/statusboard/evaluator.go:248-266 | raising all numbers makes no difference to a change or a slope |
| TrendVerdicts.NumberSays | internal/statusboard/evaluator.go:46-61 | a number has the level of the first value it is mapped from, and if there is none, that of the interval in which it lies |
| TrendVerdicts.BooleanSays | internal/statusboard/evaluator.go:31-45 | true is success and false is failure, and the other way round for an inverted item |
| Trends.MeasuredOnLine | internal/statusboard/evaluator.go:242-266 | on the points of a line a + b*i the average is the value in the middle, the change is that over the whole window, in percent of the absolute first value if so asked, and the slope is b |
| StatusHistory.FullCountIsConsecutive | internal/statusboard/evaluator.go:228-240 | asking for as many failures as the window is long is the consecutive rule |
| StatusItems.ReverseRecords | internal/statusboard/service.go:414-418 | the swaps in place reverse the array |
| StatusItems.KeepSince | internal/statusboard/service.go:286-291 | the compaction in samples[:0] keeps the samples that are not before the start of the evaluation, in order |
| StatusHistory.SinceIsSuffix | internal/statusboard/service.go:286-291 | of samples in order exactly those from the first that is not before the start are kept |
| StatusItems.VerdictIgnoresHeight | internal/statusboard/service.go:285-297 | the scaling of the bars has no influence on a rule |
| StatusItems.EvaluateItem | internal/statusboard/service.go:263-322 | fetch, reversal, filter in place and rules together: states and events are those of the rules on the filtered part of the fetched records |
| StatusItems.EvaluateExecution | internal/statusboard/service.go:263-328 | all items of a monitor: there is an evaluation unless the records cannot be listed for some enabled item, and then there is none of any |
| StatusItems.EachItemOnItsOwn | internal/statusboard/service.go:263-328 | in an evaluation each enabled item has the states and events it would get alone, and no other item has any |
| StatusHistory.FetchAgreesIff | internal/statusboard/service.go:273-291 | the bounded fetch agrees with the complete history, for every source and history, if and only if the largest window is at most 101 or the rule's own at most 21 |
| StatusHistory.FetchSuffices | internal/statusboard/service.go:273-291 | where enough is fetched, the verdict on the fetched and filtered part is the verdict on all samples since the start of the evaluation |
| StatusHistory.NeverEnough | internal/store/store.go:700-708 | beyond that the fetch falls back to 20 rows, and for every source and every history the rule has no verdict |
| StatusHistory.FetchFallsShort | internal/store/store.go:700-708 | a history where it would have one on the complete records |
| StatusHistory.EventsAlternate | internal/statusboard/service.go:296-321 | over any run, whatever evaluations and commits fail, the events of each rule id strictly alternate, and the last one tells whether it is active, even if several rules have the id |
| StatusHistory.RuleFollowsHistory | internal/runtime/runtime.go:209-233 | over any run, in which evaluations and commits may fail, a rule is active exactly if its last known verdict on the complete history, at an execution both evaluated and committed, said so |
| StatusHistory.RecordsNamed | internal/statusboard/service.go:296-321 | over any run the state of a rule names the record of the last execution both evaluated and committed, and each event that of such an execution |
| ConfigBundles.ValidateConfigBundle | internal/api/config_transfer.go:497-680 | accepts exactly the acceptable bundles for the store as it is, in either mode, and returns them with the state of monitors and items reset |
| ConfigBundles.ValidateShares | internal/api/config_transfer.go:630-679 | accepts exactly shares with distinct ids, valid and free tokens, and distinct, known monitors and items, at least one |
| ConfigBundles.ValidateReferences | internal/api/config_transfer.go:613-629 | accepts exactly if every channel and every monitor referred to is known |
| ConfigBundles.ValidateSelection | internal/api/config_transfer.go:655-674 | accepts exactly distinct and known ids |
| ConfigBundles.TokenOwners | internal/api/config_transfer.go:631-634 | the table of tokens names the share that has each token |
| ConfigBundles.TokenCheck | internal/api/config_transfer.go:648-651 | the table refuses a token exactly if it is taken by another share of the store or of the bundle |
| ConfigImport.ConfigStore.ClearTransferable | internal/store/configuration_transfer.go:117-136 | replacing leaves no shares and items, the monitors of the import, and of the channels the built-in ones and those of the import |
| ConfigImport.ConfigStore.DeleteRowsNotIn | internal/store/configuration_transfer.go:138-167 | exactly the eligible rows that are not retained go |
| ConfigImport.ConfigStore.UpsertShares | internal/store/configuration_transfer.go:222-242 | fails exactly if a token is taken by another row when its turn comes |
| ConfigImport.ConfigStore.UpsertItems | internal/store/configuration_transfer.go:207-220 | fails exactly if the monitor of an item does not exist |
| ConfigImport.ConfigStore.ImportConfiguration | internal/store/configuration_transfer.go:14-65 | all of the import or nothing: it succeeds exactly if it commits and no row conflicts, and a failed import changes nothing |
| ConfigImport.UpsertedRows | internal/store/configuration_transfer.go:178-205 | after the upserts the ids are those of the table and of the import, imported rows are there as they are, and other rows unchanged |
| ConfigTransfer.AcceptedImportSucceeds | internal/store/configuration_transfer.go:14-65 | no row of an accepted bundle violates a constraint, in either mode, and the store stays well formed |
| ConfigTransfer.ImportedRowsStand | internal/store/configuration_transfer.go:178-243 | after an accepted import, in either mode, every monitor, item and share of the bundle and every channel not flagged as built in stands under its id exactly as the bundle has it, whatever stood there before |
| ConfigTransfer.ValidatedIsImported | internal/api/config_transfer.go:497-680 | from validation to store: an accepted bundle is imported without a conflict, and its monitors and items then stand with all their fields and with no state |
| ConfigTransfer.TokensStayUnique | internal/store/configuration_transfer.go:222-242 | after each single upsert the tokens are pairwise distinct and the next one is free |
| ConfigTransfer.ImportedReferencesResolve | internal/api/config_transfer.go:497-680 | after an accepted import every imported monitor, item and share refers only to existing rows, if and only if the channels that the bundle flags as built in and refers to are in the store |
| ConfigTransfer.FlaggedChannelLost | internal/store/configuration_transfer.go:33-36 | an accepted bundle whose monitor refers to a channel that the import skips, because it is flagged as built in |
| ConfigTransfer.MergeKeepsOtherRows | internal/store/configuration_transfer.go:14-65 | a merge leaves every row outside the bundle as it was and takes away no id, so it adds no dangling reference |
| ConfigPreview.CompareTransferItems | internal/api/config_transfer.go:444-470 | every incoming item is added or overwritten, deletions are announced in replace mode only, and the three sets of ids are what their names say |
| ConfigPreview.BuildImportSummary | internal/api/config_transfer.go:367-442 | the preview of each table compares the ids of the bundle with those of the store, the built-in channel left out |
| ConfigPreview.PreviewIsEffect | internal/api/config_transfer.go:444-470 | for monitors, items and shares, in either mode, the announced changes are disjoint and are exactly the change of ids the import makes; rows not mentioned stay, and what is added or overwritten is then the row of the bundle |
| ConfigPreview.ChannelPreviewIsEffectIff | internal/api/config_transfer.go:393-406 | for channels the same holds if and only if, when replacing, no channel flagged as built in has the id of an ordinary channel of the store |
| ConfigExport.ExportConfiguration | internal/api/config_transfer.go:146-204 | a full export lists every row once, the built-in channel left out, monitors and items without state |
| ConfigExport.ExportAcceptedIff | internal/api/config_transfer.go:497-680 | a full export passes the validation for replacing any store if and only if the exporting store has valid rows and no dangling reference |
| ConfigExport.ExportImportRoundTrip | internal/store/configuration_transfer.go:14-65 | exporting a consistent store and importing that into any other in replace mode gives the other the same configuration, with state reset, and exporting it again gives the same bundle |
| ConfigExport.RowsAfterRoundTrip | internal/store/configuration_transfer.go:14-65 | row by row: in the other store each monitor and item has all its fields and no state, each share and each channel but the built-in one is as it was, and there is nothing else |
| RuntimeConfig.Store.UpdateSystemConfig | internal/store/config.go:72-104 | compare and swap on the version: the row is written, with the key kept, and its version goes up by one, or the row is unchanged unless only reading it back failed |
| RuntimeConfig.Store.SetAdminKeyHash | internal/store/auth.go:150-191 | the key is replaced, and neither values nor version change |
| RuntimeConfig.Store.ImportRuntimeConfig | internal/store/configuration_transfer.go:67-115 | every managed row is written with its version one higher, the key replaced only if the import carries one; otherwise nothing changes |
| RuntimeConfig.Manager.Load | internal/runtimeconfig/config.go:298-318 | after loading, memory is what the store has, without the key; it fails exactly if a row is missing, not decodable or the whole invalid |
| RuntimeConfig.Manager.Update | internal/runtimeconfig/config.go:128-173 | the new memory, store and applied configuration for every combination of refusal and failure |
| RuntimeConfig.Manager.ReadPath | internal/runtimeconfig/config.go:175-216 | the data of a path update is the domain as read, with one field changed |
| RuntimeConfig.Manager.Reset | internal/runtimeconfig/config.go:223-233 | a reset is an update with the defaults at the current version |
| RuntimeConfig.Manager.Import | internal/runtimeconfig/config.go:246-287 | the new memory, store and applied configuration of an import, and what a failure leaves |
| RuntimeRuns.UpdateMirrorsIff | internal/runtimeconfig/config.go:128-173 | an update keeps memory and store in step exactly if it is refused, or all its calls succeed, or the write fails and the old configuration is applied again; not if the written row cannot be read back |
| RuntimeRuns.ImportRestoresMirror | internal/runtimeconfig/config.go:246-287 | a successful import makes memory mirror the store, whatever went wrong before |
| RuntimeRuns.LoadMirrors | internal/runtimeconfig/config.go:298-318 | a load makes memory mirror the store |
| RuntimeRuns.RunMirrors | internal/runtimeconfig/config.go:128-318 | over any run in which failing store calls change nothing and applying the old configuration again succeeds, domains and versions in memory are those of the store, and the applied configuration is the one in memory |
| RuntimeRuns.RunVersionTells | internal/store/config.go:72-104 | over any run no version falls, in memory or store, and while a version stays the values stay |
| RuntimeRuns.TwoWritersNeverBothSucceed | internal/runtimeconfig/config.go:134-136 | two writers with the same version of a domain never both succeed, whatever happens between them |
| RuntimeRuns.LostReadBack | internal/store/config.go:103 | a write whose row cannot be read back leaves the manager behind the store |
| RuntimeRuns.NoUpdateWhileBehind | internal/runtimeconfig/config.go:157-163 | and then no update of that domain succeeds until an import or a restart |
| RuntimeRuns.KeyChanges | internal/store/config.go:106-127 | the key changes by a successful rotation, or a successful import that carries a key, and in no other way |
| RuntimeRuns.KeyOutlivesRun | internal/store/config.go:106-127 | over any run without those the key stays, whatever is updated, reset or imported |
| RuntimeUpdates.UpdateSucceedsIff | internal/runtimeconfig/config.go:128-173 | an update succeeds exactly if its domain may be edited, the version is the one in memory and in the store, its patch fits the fields, the patched configuration is valid and all calls succeed; then that configuration, field by field, is in memory, in the store under the next version, and in force |
| RuntimeUpdates.MisfitChangesNothing | internal/runtimeconfig/config.go:128-150 | a patch that does not fit, or of a domain that may not be edited, changes nothing |
| RuntimeUpdates.NeverInvalid | internal/runtimeconfig/config.go:128-287 | over any run, whatever fails, no invalid configuration is ever in memory or applied |
| RuntimeUpdates.ResetGivesDefaults | internal/runtimeconfig/config.go:223-233 | a reset that succeeds gives the domain its default values, in memory and in the store |
| RuntimeUpdates.ImportSucceedsIff | internal/runtimeconfig/config.go:246-287 | an import succeeds exactly if what it brings, without a key, is valid and all its calls succeed |
| RuntimeUpdates.ImportWritesAll | internal/store/configuration_transfer.go:67-115 | after an import each domain has the imported fields in memory and in the store, under the next version, and the key in the store is the new one, or if there is none the old |
| PathUpdates.KnownVersionLosesNothing | internal/runtimeconfig/config.go:175-216 | if the version the caller expects is there when the domain is read, or is older, a path update that succeeds changes one field and loses nothing written in between |
| PathUpdates.EarlyVersionLoses | internal/runtimeconfig/config.go:175-216 | for every later version: enough updates of another field in between, all of which succeed, are taken back |
| PathUpdates.PathUpdateNeverLosesIff | internal/runtimeconfig/config.go:175-216 | whatever happens between its read and its write, a path update never loses anything if and only if the version its caller expects is not later than the one at the read |
| SignaturePayload.WriteSignatureChunk | internal/plugin/signature.go:24-29 | a chunk: length and name, length and data, appended to the buffer |
| SignaturePayload.WritePayload | internal/plugin/signature.go:12-22 | prefix, manifest and the documents present, in the fixed order |
| SignaturePayload.PayloadRoundTrip | internal/plugin/signature.go:12-29 | a decoder recovers the manifest and the presence and bytes of each of the three documents from the payload |
| SignaturePayload.DecodedIsPayload | internal/plugin/signature.go:12-29 | the encoding is canonical: bytes that decode are the payload of what they decode to |
| SignaturePayload.PayloadsEqualIff | internal/plugin/signature.go:12-29 | payloads are equal exactly if manifest and signed documents are; other files never matter |
| SignaturePayload.PayloadCovers | internal/plugin/signature.go:8-22 | the payload determines, and depends on, exactly the manifest, README.md, README.en.md and LICENSE, there or missing |
| SignaturePayload.PayloadStarts | internal/plugin/signature.go:14-29 | the bytes in front: the prefix, the four bytes of the length of the manifest's name, the name, the eight bytes of the manifest's length, the manifest |
| SignaturePayload.CollectDocuments | internal/plugin/manager.go:1013-1024 | the importer finds exactly the signed documents of the unpacked package |
| SignaturePayload.PackerAndImporterAgree | cmd/pluginpack/main.go:147-166 | the packer, over all files, and the importer, over the documents beside the signature, compute the same payload |
| Deliveries.RecordStore.AddPendingDeliveries | internal/store/status_board.go:144-159 | one pending row for each delivery of each event; fails exactly if a key is taken |
| Deliveries.RecordStore.CommitMonitorExecution | internal/store/status_board.go:108-142 | record, pending rows, monitor and items together or not at all; succeeds exactly if it commits, the record is new, no key is taken and monitor and items exist |
| Deliveries.RecordStore.UpdateRecordNotificationEvents | internal/store/store.go:222-245 | the events of the record and the outcomes of the deliveries that have rows |
| Deliveries.RecordStore.HydrateDeliveries | internal/store/store.go:347-379 | with rows in any order, each record of a page gets what it would get alone: every row joins the first event of its record that has its id |
| Deliveries.RecordStore.GetRecord | internal/store/store.go:252-266 | a record of the monitor loads with the rows that are its own, and a record of another monitor does not load |
| DeliveryLoading.FreshIsClashFree | internal/store/status_board.go:144-159 | with new event ids no key is taken |
| DeliveryLoading.CommitThenLoad | internal/store/status_board.go:108-159 | a committed record loads with all its events and every delivery pending: the committed record itself exactly if every delivery was pending |
| DeliveryLoading.CommitKeepsOthers | internal/store/status_board.go:108-159 | a commit changes nothing about what other records load as |
| DeliveryLoading.UpdateThenLoad | internal/store/store.go:222-245 | after an update that names the same deliveries the record loads with exactly the events of the update, and after any number of such updates |
| DeliveryLoading.UpdateKeepsOthers | internal/store/store.go:222-245 | an update changes nothing about records whose deliveries it does not name |
| DeliveryLoading.CommitUpdateLoad | internal/store/store.go:222-245 | committed, updated, loaded: the events with their outcomes |
| ConditionRuns.PendingRecordEvents | internal/runtime/runtime.go:268-278 | each notification becomes an event with one pending delivery per channel |
| ConditionRuns.RunLocked | internal/runtime/runtime.go:160-233 | the state and the event that follow from a verdict are committed with the record or not at all, exactly if the store can commit them |
| ConditionRuns.ExecutionLoads | internal/runtime/runtime.go:160-233 | with new event ids the committed record then loads as it was |
| ConditionRuns.StateIsFold | internal/runtime/runtime.go:160-233 | after any executions of any monitors, committed or not, and any outcomes of deliveries, the stored state of a monitor is the fold over the verdicts in its stored records, in the order in which they were stored, and their event types are those of the fold |
| ConditionRuns.RecordedEventsAlternate | internal/runtime/runtime.go:160-233 | under the policy to notify once the events in a monitor's stored records strictly alternate over any run, and the last one tells its stored state |
| ConditionNotices.CommitNotifies | internal/runtime/runtime.go:203-233 | a committed execution: its record carries the event of the condition, triggered or recovered, exactly if the verdict changes the state or is met under the every policy, and then all events of the board; each delivery asked for has a pending row and no other row is new or changed; monitor and items have their new states |
| ConditionNotices.CommitsIff | internal/store/status_board.go:108-142 | with new event ids an execution is committed exactly if the transaction is, the record is new, and its monitor and items are there |
| ConditionNotices.EachRecordNotifies | internal/runtime/runtime.go:160-233 | over any run of executions of any monitors and outcomes of their deliveries, each stored record carries the condition's event exactly if its verdict differs from the last one known among the stored records, or is met and every time counts, and each delivery has its row |
| ConditionRuns.ActiveIsLastKnown | internal/runtime/runtime.go:160-175 | under either policy the state is the last verdict that was known |
| ConditionRuns.OnceAlternates | internal/runtime/runtime.go:160-175 | under the policy to notify once the events of any verdicts strictly alternate, and the last one tells the state |
| ConditionRuns.EveryNotifiesEachTime | internal/runtime/runtime.go:160-175 | under the policy to notify every time each verdict that meets the condition has its event, and no recovery comes without a trigger since the last one |

## Left out

- WebSocket, gRPC, HTTP, Chrome APIs, the database and its driver: their outcomes are parameters of the steps and methods (`commits`, `luck`, `attach`, `ok`), and tables are maps.
- JSON text, regular expressions, cron expressions and time zones: decoded values, whether a configuration text is valid, and the `next` function of a schedule are given.
- Keys, hashes and signatures as such: foreign primitives; the model ends at the payload that is signed.
- Rounding, infinities and NaN: floats are real numbers.
- Schedules of the form `@every`, and schedules that never fire: not sets of instants, and excluded from all claims about schedules.
- Random ids: commands, requests, records and events get ids that are new. The order of equal start times is the order in which records were stored.
- `responseAssembly` and `scheduleTask` are reached through pointers in the code; here they are values in their maps, so aliasing is not captured.
- DebuggerSessions.Debugger.ReleaseDebugger: a failed detach counts as detached, because its error is dropped; operations on one tab are serial, and nobody else detaches.
- WebStorage.CutLast: the serialized size is not monotone inside a surrogate pair, so the cut is not always the longest; the code can also say truncated when the announcement itself, being one byte shorter, makes the whole value fit.
- SessionClients.SessionClient.Attach: the write loop that reads the send queue, and the size of that queue, are not modelled; a send may fail at any time.
- Samples.ScaleNumericSamples: infinite numbers do not occur among the samples, as `buildSample` sees to it.
- Trends.BuildSamples: the value of a record is given as the source finds it, and text mappings are a function from text to level; labels, colours and display texts are not modelled.
- StatusItems.EvaluateExecution: delivery to channels and stream messages are not modelled, and the items of a monitor have distinct ids, as rows of one table do.
- StatusHistory.FetchSuffices: the records of a monitor, the new one included, are in the order of their start, because its runs exclude each other; a clock that is set back is not modelled.
- ConfigBundles.ValidateConfigBundle: creation and update times, which are filled in if missing, are not modelled, and which error is reported is left open. The rows that change between validation and import are not modelled: both see the same store.
- ConfigImport.ConfigStore.ImportConfiguration: the runtime rows are written in the same transaction; they are modelled in `RuntimeConfig`. A failure of the database anywhere in it is `commits` being false.
- ConfigPreview.CompareTransferItems: the three lists are sorted by name for display; their order is not modelled.
- RuntimeConfig.Manager.Update: fields are named by their full paths, and a patch names fields; notifying the subscribers is not modelled.
- RuntimeConfig.Manager.ReadPath: a path that names an object with several fields is not modelled.
- RuntimeConfig.Manager.Load: filling in a missing session lifetime of older stores is not modelled.
- Deliveries.RecordStore.HydrateDeliveries: the records of a page have distinct ids, as rows of one table do. Columns of delivery rows that do not return to the record (times, titles, read marks) are not modelled, nor is the pruning of old rows.
- ConditionRuns.RunLocked: running the module and evaluating the rules of a condition are not modelled; the verdict is given.
- ConditionNotices.EachRecordNotifies: an update of outcomes names the events of its record, as the delivery loop does; an update with other events is covered by `DeliveryLoading.UpdateThenLoad`.
- ConditionRuns.StateIsFold: the pruning of old records, and edits that change the policy or reset the state of a monitor, are not modelled.
- The plugin's life cycle, the MCP server, action parameters, page numbers, labels and summaries: they would add only easy members.
