# Dashboard core: a verified model

The panel's browser code (`panel/public/assets`) holds ten algorithmic cores behind its pages. This project
models each of them in Dafny and proves what they promise. `dafny verify dfyconfig.toml` checks everything.

| files | core |
|---|---|
| `JobQueueState`, `JobQueueProofs`, `JobQueueLaws`, `JobQueue` | the heavy-job queue: per-server slots, jobs on several servers, force, move, cancel, a changeable limit |
| `FailoverTiming` | how the chosen failover speed becomes heartbeat, lease and takeover times |
| `Bezier`, `SmoothPath`, `CurveShape`, `Sparkline` | monotone cubic curves (Fritsch–Carlson limiting in place), which curve that is, and the sparkline box |
| `EventClientState`, `EventWorld`, `EventLog`, `EventGaps`, `EventFallback`, `EventClient` | live events: event stream, long-poll fallback, probing, an id cursor, against the server's ring buffer |
| `UploadProtocol`, `UploadSafety`, `ChunkedUpload`, `UploadRetries` | chunked upload: the client's loop, a server that takes requests bit by bit with several under way at once, and a network that loses, delays and repeats pieces |
| `EnvText`, `EnvRoundTrip`, `EnvGrammar`, `EnvRules` | printing and parsing `.env` text |
| `LogStitch` | joining a job's log file and its live batches |
| `BackupStacks` | sorting backups and folding them into stacks |
| `TunnelState`, `TunnelLaws`, `TunnelDelivery` | which Cloudflare tunnel delivers which domain: defaults, validation, saving, local choices |
| `Base64Url`, `Base64Bits` | the base64url codec of the passkey pages |
| `Basics` | options, bytes, bounds, duplicate-free sequences, order in a sequence |

Objects the source changes in place are classes (`JobQueue.HeavyQueue` with its `Job` records,
`EventClient.LiveEvents`, `ChunkedUpload.Wire`, `TunnelDelivery.Picker`); loops over arrays keep the arrays. Each
method is proved to do to the object's value what a function on values says, and the laws are proved about those
functions and their runs.

## Where the code and its promises part

In each case the code is modelled as it is, the failing input is given or characterised, and the exact condition
is proved.

- **Live events.** `events.js:8-9` says that switching transports never loses or repeats an event. Nothing is ever
  repeated (`EventLog.NoDuplicates`), but events can be lost. The view begins at the first sign of life: a hello or
  an event on a stream, or the answer to a poll. Over every run what was emitted is the log from there on without a
  gap exactly when no streamed event and no current poll answer came from past the client's place in it
  (`EventGaps.RunGapFreeIff`). It does in these runs from the start:
  - a hello on a quiet panel names no id that the client keeps, so a poll after a stall asks for nothing and skips
    what happened since (`EventGaps.StallLosesEvents`), and a browser that reconnects does so without an id
    (`EventGaps.DropLosesEvents`); both lose events whenever there was one;
  - more than 500 events happen while the stream is down (`EventGaps.OverflowLosesEvents`);
  - a stream opened with no id goes live behind a poll that has set one (`EventGaps.RaceLosesAnEvent`).

  `EventGaps.RunGapFree` names these moments as they begin; without them nothing is lost.
- **Chunked upload, overlapping requests.** A request that hangs stays open on the server (`panel/server.mjs:602`)
  after the client has given it up, and `appendToFile` compares the size once, appends as bytes arrive, and on
  failure sets the file to the length that its own request began at. With two requests under way the upload can
  return although 70 of 100 bytes were handed on (`UploadSafety.OverlapHandsOnTooLittle`), or all 100 with 20 zeros
  among them (`UploadSafety.OverlapHandsOnZeros`). The file is right at every moment exactly when no request acts
  on a file that is not as it left it (`UploadSafety.RunRightIff`); requests that overlap neither one another nor
  the import job's removal of the file never do (`UploadSafety.NoOverlapIsRight`), and two that overlap can go astray
  within three steps (`UploadSafety.OverlapCanGoAstray`).
- **Chunked upload, lost answers.** When the answer to the last piece is lost, the piece is sent again. The plain
  appending contract then lets the client finish. The import route ends in its own "Bad upload offset" although the
  file was completed and its import started, and takes a file of one piece a second time
  (`ChunkedUpload.LastAnswerLost`). The import route also starts afresh whenever a copy of the first piece arrives,
  so the bound on requests grows with the number of times stored bytes are undone.
- **.env text.** The editor's key box accepts keys that start with a digit; the parser does not read them back.
  A value with a carriage return outside a CRLF, U+2028 or U+2029 is printed on a line that the parser skips.
  `EnvRoundTrip.EnvRoundTripIff` is the exact condition.
- **Log stitching.** A batch whose start merely looks like the end of the tail is cut
  (`LogStitch.ExactlyTheRestIff`, `LogStitch.RepeatedBatchIsLost`). With no line twice, `LogStitch.WholePaneExact`
  says exactly when the pane ends up showing the log once: lines are shown again if the buffered ones begin more
  than 200 lines before the end of the file, or if the first live batch begins inside what is shown and comes
  after the three seconds of comparing, begins more than 200 lines back, or ends before what is shown does (the
  tail is not moved on).
- **Delivery picker.** A domain added to the list is put on the tunnel without the default tunnels being picked
  again, so it may get one that cannot carry it (`TunnelLaws.AddedDomainIsNotPicked`). A tunnel whose account is
  not known passes for fitting and is kept although the domain's own account has one
  (`TunnelLaws.UnknownAccountIsKept`, exactly when: `TunnelLaws.OwnAccountIff`).
- **Failover speed.** Below 10 seconds no whole number of seconds keeps the promise that the database is back
  within the chosen speed; from 10 up all do (`FailoverTiming.WithinChosenSpeed`).
- **Curves.** No order of the x values is needed: every piece stays within its two points for any points.

## Model

| member | source | states |
|---|---|---|
| `JobQueueProofs.PumpIsGreedy` | panel/public/assets/mock.js:307-324 | one pass of the pump gives exactly the state of repeatedly starting the first waiting job whose servers have a free slot and are named by no earlier waiting job |
| `JobQueueProofs.PumpIdempotent` | panel/public/assets/mock.js:307-317 | pumping twice is pumping once |
| `JobQueueProofs.PumpStable` | panel/public/assets/mock.js:307-317 | after a pump no waiting job could start, positions are 1..n, waiting and slots are disjoint and hold exactly the queued and running jobs |
| `JobQueueProofs.RunStable` | panel/public/assets/mock.js:299-324 | every state a run of adds, ends, cancels, moves, forces and limit changes reaches has these properties, and no begin callback has run twice |
| `JobQueueProofs.InitStable` | panel/public/assets/mock.js:298 | the empty queue has them |
| `JobQueueProofs.SpliceFacts` | panel/public/assets/mock.js:547 | the move's two splices permute the list and put the job at its target |
| `JobQueueProofs.SpliceOrder` | panel/public/assets/mock.js:547 | and keep the order of all other jobs |
| `JobQueueLaws.PumpOrder` | panel/public/assets/mock.js:307-317 | a pump never starts a job before one ahead of it that shares a server |
| `JobQueueLaws.RunOrder` | panel/public/assets/mock.js:299-324 | over every run a job behind another that shares a server begins only after it, unless somebody moves either, forces the later or cancels the earlier one |
| `JobQueueLaws.PumpCapacity` | panel/public/assets/mock.js:306-313 | a pump never takes a server past the limit, forced jobs counted: a server over the limit has gained no holder |
| `JobQueueLaws.RunCapacity` | panel/public/assets/mock.js:306-313 | over every run the jobs the pump let in on a server never exceed the highest limit that was in force |
| `JobQueueLaws.NeverLowered` | panel/public/assets/mock.js:535-539 | if no command lowers the limit, the highest limit of a run is the last one |
| `JobQueueLaws.LimitKept` | panel/public/assets/mock.js:306-324 | from an empty queue with a limit never lowered, non-forced holders of every server stay within the limit |
| `JobQueueLaws.PumpConserves` | panel/public/assets/mock.js:307-324 | a pump loses no job, changes no status but queued to running, and runs exactly the callbacks of the jobs it starts, each once |
| `JobQueueLaws.RunHistory` | panel/public/assets/mock.js:299-324 | over every run callbacks are only appended, jobs are never forgotten, and a job cancelled before it began never begins |
| `JobQueueLaws.SomebodyRuns` | panel/public/assets/mock.js:307-317 | between commands a non-empty waiting list implies an occupied slot |
| `JobQueueLaws.FinishDrains` | panel/public/assets/mock.js:282-290 | the end of a running job takes exactly that job out of waiting and slots together and records how it ended |
| `JobQueueLaws.CancelEnds` | panel/public/assets/mock.js:533 | a cancelled job leaves waiting or slots, no other does, and one that was waiting never begins |
| `JobQueueLaws.ForceStarts` | panel/public/assets/mock.js:550-555 | a forced job begins before anything else, marked forced, and nobody leaves the queue for it |
| `JobQueueLaws.AddJoins` | panel/public/assets/mock.js:299-305 | a new job joins behind every waiting job it shares a server with: the premise of RunOrder |
| `JobQueueLaws.AddIsRecorded` | panel/public/assets/mock.js:299-305 | a new job is recorded with the servers it names, else its one server, else the main one; queued or running, and not forced |
| `JobQueueLaws.MoveGoes` | panel/public/assets/mock.js:540-549 | where a move puts a job: top first, bottom last, up exchanged with the one before and down with the one after, nothing at the ends; the others keep their order, and then the queue pumps |
| `JobQueueLaws.MoveGoesAt` | panel/public/assets/mock.js:540-549 | a move to an index puts the job at that index cut to the list, the others in order |
| `JobQueueLaws.LimitIsTaken` | panel/public/assets/mock.js:535-539 | a limit from 1 to 8 is the limit from then on, and the queue pumps under it |
| `JobQueueLaws.QueueDrains` | panel/public/assets/mock.js:267-324 | with no new commands every sequence of job ends shrinks the load by one each, never gets stuck, and when nothing is left every waiting job has begun |
| `JobQueue.HeavyQueue.constructor` | panel/public/assets/mock.js:298 | a new queue is the empty one |
| `JobQueue.HeavyQueue.MqUsed` | panel/public/assets/mock.js:306 | counts the slots that name the server |
| `JobQueue.HeavyQueue.MqBegin` | panel/public/assets/mock.js:318-324 | changes lists, slot table, callbacks and job record in place exactly as a start does |
| `JobQueue.HeavyQueue.ScanWaiting` | panel/public/assets/mock.js:310-314 | the loop over the snapshot is the one-pass scan that PumpIsGreedy is about |
| `JobQueue.HeavyQueue.NumberWaiting` | panel/public/assets/mock.js:315 | waiting jobs get positions 1..n and no other record changes |
| `JobQueue.HeavyQueue.MqPump` | panel/public/assets/mock.js:307-317 | the four stages in place are the pump on values |
| `JobQueue.HeavyQueue.AddHeavy` | panel/public/assets/mock.js:299-305 | a new job is one step of the queue's runs, whatever servers it names |
| `JobQueue.HeavyQueue.FinishJob` | panel/public/assets/mock.js:281-290 | the end of a job is one step |
| `JobQueue.HeavyQueue.CancelJob` | panel/public/assets/mock.js:533 | a cancellation is one step, 404 for an unknown job, nothing for one that is over |
| `JobQueue.HeavyQueue.SetLimit` | panel/public/assets/mock.js:535-539 | a limit change is one step, 400 outside 1 to 8 |
| `JobQueue.HeavyQueue.MoveJob` | panel/public/assets/mock.js:540-549 | a move is one step, with its 404, 409 and 400; where it puts the job is MoveGoes and MoveGoesAt |
| `JobQueue.HeavyQueue.ForceJob` | panel/public/assets/mock.js:550-555 | a force is one step, with its 404 and 409 |
| `FailoverTiming.TimingIsWhole` | panel/public/assets/mock.js:918-920 | the rounded real formulas equal whole-number ones for every number of seconds |
| `FailoverTiming.WithinChosenSpeed` | panel/public/assets/mock.js:917-924 | the displayed database failover is at most the chosen speed exactly from 10 seconds up |
| `FailoverTiming.TakeoverFirst` | panel/public/assets/mock.js:920-921 | the panel takeover is below the database failover, for every number of seconds |
| `FailoverTiming.SummaryMonotone` | panel/public/assets/mock.js:917-923 | a slower choice shortens no displayed time, the blip tolerance included |
| `FailoverTiming.BlipTolerated` | panel/public/assets/mock.js:922 | from 10 seconds up the tolerance is positive and fits the lease after its margin and two heartbeats |
| `FailoverTiming.DocumentedSpeeds` | docs/HA.md:871-877 | the summary at 10, 15, 30, 60 and 120 seconds is the one of the documentation, the lease margin included |
| `FailoverTiming.TimesAreShares` | docs/HA.md:852-865 | heartbeat, lease, margin and detection time are the documented shares to the nearest tenth of a second, within the documented limits, for every speed |
| `FailoverTiming.EstimatesAddUp` | docs/HA.md:867-869 | takeover and failover are the documented sums of these, for every speed |
| `FailoverTiming.LeaseOutlastsHeartbeats` | docs/HA.md:879-882 | the lease without its margin lasts two heartbeats and half a second, and detection takes three heartbeats at least |
| `SmoothPath.DrawSmoothPath` | panel/public/assets/charts.js:8-32 | the array loops compute the path that DrawnCurve is about, for any points; no points, one and two draw nothing, a point and a segment |
| `SmoothPath.FillTangents` | panel/public/assets/charts.js:19-20 | the array of first tangents, which are those DrawnCurve starts from |
| `SmoothPath.LimitInterval` | panel/public/assets/charts.js:22-24 | one interval's in-place change of two tangents touches nothing else |
| `SmoothPath.LimitTangents` | panel/public/assets/charts.js:21-25 | the pass in place is the fold of its interval steps |
| `SmoothPath.LimitPairWorks` | panel/public/assets/charts.js:22-24 | one step brings an interval within the limit, only pulls tangents towards zero, and leaves an interval that meets it alone |
| `SmoothPath.ShrunkLimitMet` | panel/public/assets/charts.js:21-25 | an interval's limit survives the next one rescaling their shared tangent |
| `SmoothPath.TangentsWork` | panel/public/assets/charts.js:13-25 | after the pass every interval meets a*a + b*b <= 9 and every tangent only shrank |
| `SmoothPath.LimitLeavesGood` | panel/public/assets/charts.js:21-25 | the pass changes nothing when all intervals already meet the limit |
| `SmoothPath.PieceMonotone` | panel/public/assets/charts.js:7-32 | every piece runs evenly in x and monotonically in y between its two points |
| `SmoothPath.NoOvershoot` | panel/public/assets/charts.js:7-32 | no height on a piece is outside the heights of its two points |
| `SmoothPath.PiecesJoinSmoothly` | panel/public/assets/charts.js:27-30 | neighbouring pieces meet with inner controls in line |
| `CurveShape.DrawnCurve` | panel/public/assets/charts.js:13-31 | the curve told from the points alone: one sweep from left to right pulls the means of same-signed neighbouring slopes, else 0, onto the circle of radius 3 where they are outside it, and each piece leaves and reaches its points with those slopes |
| `CurveShape.MeansKept` | panel/public/assets/charts.js:19-25 | where the means meet the limit on every interval, they are the slopes of the curve |
| `CurveShape.MeansShrink` | panel/public/assets/charts.js:19-25 | every slope is its mean pulled towards zero, and 0 where the neighbouring slopes do not share a sign |
| `CurveShape.StraightLine` | panel/public/assets/charts.js:13-31 | three or more points on a line are drawn as that line |
| `Bezier.CubicMonotone` | panel/public/assets/charts.js:7 | a cubic whose end slopes meet the limit does not turn back |
| `Sparkline.DrawSparkline` | panel/public/assets/charts.js:36-45 | missing values are skipped, fewer than two give the dashed line, equal values are spread by one |
| `Sparkline.PointInBox` | panel/public/assets/charts.js:41-44 | every mapped point is in the padded box, extremes on its edges |
| `Sparkline.SparklineInBox` | panel/public/assets/charts.js:41-45 | no point of the drawn curve leaves the padded box |
| `Sparkline.PointsToScale` | panel/public/assets/charts.js:41-44 | heights differ as the values do, a greater value is higher, and points are evenly spaced |
| `Sparkline.ConstantInTheMiddle` | panel/public/assets/charts.js:41-44 | equal values are drawn across the middle |
| `Sparkline.PresentKept` | panel/public/assets/charts.js:37 | values that are all there are kept in order |
| `Sparkline.AbsentSkipped` | panel/public/assets/charts.js:37 | a missing one makes no difference to the others |
| `EventWorld.RunAlert` | panel/public/assets/events.js:72-149 | in every reachable state mode "poll" holds exactly when the current generation's loop runs, with a probe or open attempt pending, and mode "sse" has an open, stall or retry timer armed |
| `EventWorld.RecoversToLive` | panel/public/assets/events.js:78-149 | from every such state at most three possible happenings make the stream live |
| `EventFallback.ErrorOutcome` | panel/public/assets/events.js:112-132 | an error gives the stream up exactly when two others came in the last minute or the closed source fails while polling: no source, mode "poll", a running loop, the probe armed, no error remembered; otherwise the source stays with the error counted, and a closed one is opened again |
| `EventFallback.ThirdDropGivesUp` | panel/public/assets/events.js:112-132 | a stream that drops three times within a minute is kept twice and then given up |
| `EventFallback.RunErrors` | panel/public/assets/events.js:112-145 | over every run at most two errors are remembered |
| `EventFallback.TimeoutOutcome` | panel/public/assets/events.js:85-89 | a stream that does not open or falls silent is given up for polling in the same way |
| `EventFallback.ReopenOutcome` | panel/public/assets/events.js:78-85 | retry timer and probe open a stream that asks for what follows the last id, the probe only while polling |
| `EventFallback.AliveOutcome` | panel/public/assets/events.js:86-97 | a sign of life makes the stream live and ends the running poll loop, and a further one changes nothing |
| `EventFallback.PollOutcome` | panel/public/assets/events.js:163-199 | what an answer, a failure and the end of a pause do to the current loop, status and probe |
| `EventLog.NoDuplicates` | panel/public/assets/events.js:43-50 | over every run emitted ids strictly increase |
| `EventGaps.RunGapFreeIff` | panel/public/assets/events.js:43-199 | over every run the events emitted since the first sign of life are the log without a gap, each once and in order, exactly when no streamed event and no answer of the current poll loop came from past the client's place in the log |
| `EventGaps.RunGapFree` | panel/public/assets/events.js:78-199 | nothing is lost if nothing connects or polls from further back than the buffer reaches, or without an id after something happened in the view, and no stream opened with no id goes live behind polls |
| `EventGaps.StallLosesEvents` | panel/public/assets/events.js:137-175 | the stream stalls after its hello, n events happen, the first poll is answered: events are lost exactly when n is not 0 |
| `EventGaps.DropLosesEvents` | panel/server.mjs:253-255 | the stream drops after its hello, n events happen, it reconnects: events are lost exactly when n is not 0 |
| `EventGaps.OverflowLosesEvents` | panel/server.mjs:220-224 | the stream drops after its first event, n events happen, it reconnects: events are lost exactly when n is more than 500 |
| `EventGaps.EventKeepsGapFreeIff` | panel/public/assets/events.js:101-107 | a streamed event keeps the view gap-free exactly if the stream is not ahead of the client's place in the log, its last id or before it has one the beginning of its view |
| `EventGaps.PollKeepsGapFreeIff` | panel/public/assets/events.js:183-189 | an answer of the current poll loop does exactly if it does not start past that place |
| `EventGaps.RaceLosesAnEvent` | panel/public/assets/events.js:78-97 | a run in which an event is lost although the buffer never overflowed |
| `EventLog.RunGood` | panel/server.mjs:196-299 | ids, replies and loops stay consistent with the log in every reachable state |
| `EventLog.ReplayFits` | panel/server.mjs:238-299 | what a stream or poll replays begins at the id asked for while the buffer reaches it |
| `EventClient.LiveEvents.constructor` | panel/public/assets/events.js:60-68 | the client starts with a stream being opened, alert and with nothing emitted |
| `EventClient.LiveEvents.Deliver` | panel/public/assets/events.js:43-50 | emits only ids past the last one and moves it on |
| `EventClient.LiveEvents.StartSSE` | panel/public/assets/events.js:78-81 | replaces the source, its timers and the probe |
| `EventClient.LiveEvents.Alive` | panel/public/assets/events.js:86-97 | the whole new state at a sign of life, used by hello and events |
| `EventClient.LiveEvents.Fallback` | panel/public/assets/events.js:137-149 | starts a poll loop only when not polling, and arms the probe |
| `EventClient.LiveEvents.StartPolling` | panel/public/assets/events.js:153-161 | a new generation with one loop asking after the last id |
| `EventClient.LiveEvents.OnHello` | panel/public/assets/events.js:86-99 | first bytes end polling by a new generation; the client stays alert and its ids in order |
| `EventClient.LiveEvents.OnEvent` | panel/public/assets/events.js:101-107 | an event is a sign of life and is emitted only if it is past the last id; alert, and in order |
| `EventClient.LiveEvents.OnError` | panel/public/assets/events.js:112-132 | the third error within a minute, or one of a closed source while polling, and no other, gives the stream up for a running poll loop and the probe; the client stays alert |
| `EventClient.LiveEvents.OnOpenTimeout` | panel/public/assets/events.js:85 | a stream that does not open is given up for polling, alert |
| `EventClient.LiveEvents.OnStallTimeout` | panel/public/assets/events.js:88-89 | so is a stream that stalls |
| `EventClient.LiveEvents.OnRetryTimeout` | panel/public/assets/events.js:129-130 | a stream the browser gave up is opened again, alert |
| `EventClient.LiveEvents.OnProbeTimeout` | panel/public/assets/events.js:146-149 | a probe opens a stream only while polling, alert |
| `EventClient.LiveEvents.OnPollAnswer` | panel/public/assets/events.js:183-189 | an answer of an old generation only ends its loop, a current one delivers and goes round; alert, and ids in order when the answer is not behind |
| `EventClient.LiveEvents.OnPollFailure` | panel/public/assets/events.js:190-194 | a failure of the current generation sleeps offline, an old one ends; alert |
| `EventClient.LiveEvents.OnWake` | panel/public/assets/events.js:165 | after the sleep a current loop goes on and an old one ends; alert |
| `UploadProtocol.RunFormed` | panel/public/assets/api.js:141-163 | over every run the client waits only for its own present piece, keeps its counters in bounds, and returns only after a file was handed on |
| `UploadProtocol.RunSent` | panel/public/assets/api.js:149 | over every run each request on the server is for a place the client has sent a piece from |
| `UploadProtocol.FileGoes` | panel/lib/mysql.mjs:1668-1672 | a temporary file only goes when the first piece of an import comes again, or after a file was handed on |
| `UploadSafety.RunRightIff` | panel/lib/mysql.mjs:348-381 | over every run, requests overlapping in any way, the stored bytes are a prefix of the file at every moment and all handed on is the whole file, exactly when no request acts on a file that is not as it left it |
| `UploadSafety.RunSound` | panel/public/assets/api.js:141-163 | as long as that holds, what was handed on is the file byte for byte, and a client that returned had it handed on |
| `UploadSafety.NoOverlapIsRight` | panel/lib/mysql.mjs:348-381 | requests taken, and files removed by the import job, only while no request is under way: nothing goes astray |
| `UploadSafety.OverlapCanGoAstray` | panel/lib/mysql.mjs:353-381 | with two requests under way, one with the file open and two bytes to go, at most three steps the network may take lead astray |
| `UploadSafety.OverlapHandsOnTooLittle` | panel/lib/mysql.mjs:353-381 | a hanging request dies while the next one writes: 70 bytes are handed on for 100 and the client returns |
| `UploadSafety.OverlapHandsOnZeros` | panel/lib/mysql.mjs:372-379 | two requests die, the older first: a file of the right length with 20 zeros is handed on and the client returns |
| `UploadSafety.HalfStoredIsReached` | panel/public/assets/api.js:145-153 | the state both runs begin in is reached by an undisturbed first piece |
| `UploadSafety.ServedIs` | panel/lib/mysql.mjs:353-380 | a piece that arrives whole, alone and in its turn is stored after the others and answered with the new size |
| `ChunkedUpload.StepPatience` | panel/public/assets/api.js:145-162 | the outcome of every request uses up the measure (bytes due, then resyncs and retries) unless the step undoes stored bytes |
| `ChunkedUpload.UploadTerminates` | panel/public/assets/api.js:145-162 | in any run, overlaps included, the number of requests is bounded by file size, chunk size and how often stored bytes are undone |
| `ChunkedUpload.ContractTerminates` | panel/lib/mysql.mjs:348-381 | with the appending contract alone and no overlap nothing is undone and the bound is absolute |
| `ChunkedUpload.CleanUploadReturns` | panel/public/assets/api.js:145-153 | when every piece is answered the upload returns after exactly the pieces that are left, with the whole file handed on once |
| `ChunkedUpload.LastAnswerLost` | panel/lib/mysql.mjs:1659-1678 | the last piece accepted with its answer lost: finished by the contract, refused by the import route, a one-piece file taken twice |
| `UploadRetries.FailureIs` | panel/public/assets/api.js:154-160 | a request that never arrives, or breaks off after any number of bytes, stores nothing; the piece is sent again exactly when the status is 0, 502, 504, 520 or 524 and fewer than four failures came before, else the upload throws the status |
| `UploadRetries.BumpyUploadReturns` | panel/public/assets/api.js:145-162 | an upload each of whose pieces fails so at most four times in a row returns with the whole file handed on once, after one request for each piece and each failure |
| `UploadRetries.FifthFailureThrows` | panel/public/assets/api.js:156-160 | a fifth such failure in a row throws its status, after five requests |
| `UploadRetries.ResyncIs` | panel/public/assets/api.js:155 | a piece sent from the wrong place makes the client go on from the stored size, five times in a row; the sixth throws 409 |
| `UploadRetries.ResumedUploadReturns` | panel/public/assets/api.js:145-162 | a client that starts in the wrong place of a sound upload finds the right one and returns with the whole file handed on, such failures included |
| `UploadRetries.OutsideIs400` | panel/lib/mysql.mjs:1666 | a piece that starts at or past the end is refused by the import route and ends the upload with 400 |
| `UploadRetries.FileGoneIs500` | panel/lib/mysql.mjs:1676 | a last piece that ends after its file was removed ends the upload with 500, and nothing is handed on |
| `ChunkedUpload.Wire.SendRaw` | panel/public/assets/api.js:96-115 | one request and whatever else happens on network and server meanwhile, in any order, is a run with one outcome |
| `ChunkedUpload.UploadChunked` | panel/public/assets/api.js:141-163 | the client's loop ends on every network, everything it did is one run (whose retries FailureIs and ResyncIs decide), it returns only after a file was handed on, and that is the whole file if nothing went astray |
| `EnvText.ParseEnvPaste` | panel/public/assets/components.js:291-298 | the loop reads the lines in order, a later one winning |
| `EnvText.Get` | panel/public/assets/components.js:345-349 | the editor's map: rows with a key, a later one winning |
| `EnvRoundTrip.UnquoteQuote` | panel/public/assets/components.js:279-288 | quoting and unquoting gives every value back with CRLF as LF |
| `EnvRoundTrip.ReadLineIff` | panel/public/assets/components.js:281-294 | a printed row, whatever its key, is read back as itself exactly when its key is an identifier and its value has no lone carriage return or Unicode separator |
| `EnvRoundTrip.SplitJoin` | panel/public/assets/components.js:281-293 | splitting the printed text gives its lines back |
| `EnvRoundTrip.ParsePrinted` | panel/public/assets/components.js:279-319 | for rows with keys as the editor's key box leaves them, parsing printed rows gives the map of the readable ones |
| `EnvRoundTrip.EnvRoundTripIff` | panel/public/assets/components.js:279-349 | for every list of rows, parse of print equals the editor's map up to CRLF exactly when each key that counts is an identifier and its value clean |
| `EnvRules.PlainIff` | panel/public/assets/components.js:280 | a value is printed as it is exactly when it has no blank, hash sign, quote or backslash, else in double quotes |
| `EnvRules.SingleQuotes` | panel/public/assets/components.js:284-288 | single quotes take their text as it is, and so does no pair of quotes |
| `EnvRules.DoubleQuotes` | panel/public/assets/components.js:285 | what a backslash before each character means in double quotes |
| `EnvRules.LineEnds` | panel/public/assets/components.js:293 | a line ends at its first line feed, with or without a carriage return before it |
| `EnvRules.LastRowCounts` | panel/public/assets/components.js:345-349 | the map of the editor has each key that is not empty, with the value of its last row |
| `EnvRules.LastLineCounts` | panel/public/assets/components.js:291-298 | and that of a pasted text the value of the last line that matches with the key |
| `EnvRules.KeysAreNamed` | panel/public/assets/components.js:294 | only keys of letters, digits and underscores that do not start with a digit come out of a text, and each does with any clean value |
| `EnvGrammar.MatchIsRead` | panel/public/assets/components.js:294 | every match of the line pattern, however it shares out the blanks around the value, is read as that key and the value without them |
| `EnvGrammar.ReadIsLine` | panel/public/assets/components.js:294 | whatever is read of a line matches the pattern |
| `LogStitch.DropOverlap` | panel/public/assets/components.js:165-173 | drops the longest start of the batch that ends the tail |
| `LogStitch.ContainedIn` | panel/public/assets/components.js:197-203 | finds the batch as one contiguous run exactly when there is one |
| `LogStitch.PaintLog` | panel/public/assets/components.js:190-207 | pane and tail after loading |
| `LogStitch.StitchShortest` | panel/public/assets/components.js:165-173 | tail and added lines are the shortest sequence that starts with the tail and ends with the batch |
| `LogStitch.PaintedKeepsBoth` | panel/public/assets/components.js:190-206 | the painted log starts with the file and contains the buffered batch as one run |
| `LogStitch.PaintedShortest` | panel/public/assets/components.js:193-206 | for a file within the window nothing shorter does |
| `LogStitch.ExactlyTheRestIff` | panel/public/assets/components.js:161-173 | exactly the unseen rest of a batch is added if and only if no longer start of it looks like an end of the tail |
| `LogStitch.RepeatedBatchIsLost` | panel/public/assets/components.js:161-173 | a batch equal to the end of the tail adds nothing |
| `LogStitch.LiveLogExact` | panel/public/assets/components.js:161-179 | with no line twice, live batches after the first n lines show the log exactly once if and only if they follow on, or the first comes in time, begins within 200 lines and reaches the end of what is shown |
| `LogStitch.WholePaneExact` | panel/public/assets/components.js:161-207 | the same from loading to the last batch: exactly if also the lines buffered meanwhile begin within the last 200 of the file |
| `BackupStacks.SameStack` | panel/public/assets/components.js:567 | backups share a stack exactly when of one kind and about one thing |
| `BackupStacks.StackTold` | panel/public/assets/components.js:567 | databases are told apart by id, those without one by name, servers by id; those that name nothing share a stack, and the kinds never do |
| `BackupStacks.GroupByStack` | panel/public/assets/components.js:574-579 | keys in order of first use, each with its backups in order |
| `BackupStacks.BackupRows` | panel/public/assets/components.js:573-581 | sorting, grouping and laying out computes the table |
| `BackupStacks.SortIsStable` | panel/public/assets/components.js:575 | backups of one time keep their order |
| `BackupStacks.TableKeepsAll` | panel/public/assets/components.js:573-581 | the rows are a permutation of the backups |
| `BackupStacks.TableLaws` | panel/public/assets/components.js:569-581 | each stack is one block, newest first, blocks by newest entry; exactly its first row is not older, and it alone carries the whole stack |
| `BackupStacks.RowsShowStack` | panel/public/assets/components.js:580-581 | the rows of a stack show exactly that stack in its order |
| `TunnelLaws.ZoneIsLongest` | panel/public/assets/views/cloudflare.js:25-29 | a host's zone is the longest one it belongs to, none only if there is none |
| `TunnelLaws.ZoneOrderIsIrrelevant` | panel/public/assets/views/cloudflare.js:25-29 | it depends on neither order nor repetition of the zones |
| `TunnelLaws.AccountOfZone` | panel/public/assets/views/cloudflare.js:105-106 | a host's account is the one listed for its longest zone, and unknown when there is none or the zone is empty |
| `TunnelLaws.BestIs` | panel/public/assets/views/cloudflare.js:52-56 | the suggested tunnel is the first of the best among those of the account, or among all when it is unknown or has none; connected here beats local, which beats neither |
| `TunnelLaws.SiteTunnelKept` | panel/public/assets/views/cloudflare.js:58-60 | the website keeps its tunnel when that is listed and can carry the first tunnelled domain, or none is tunnelled; otherwise it gets the one suggested for that domain's account |
| `TunnelLaws.PickedTunnel` | panel/public/assets/views/cloudflare.js:61-66 | a tunnelled domain gets its own choice if that can carry it, else the website's tunnel if that can, else the suggested one |
| `TunnelLaws.PickFits` | panel/public/assets/views/cloudflare.js:47-68 | after picking a tunnelled domain has an existing tunnel, and it can carry the domain exactly when its own choice, the website's tunnel or the best one could |
| `TunnelLaws.PickServesEveryAccount` | panel/public/assets/views/cloudflare.js:47-68 | a tunnelled domain whose account has a tunnel, or is unknown, gets one that can carry it |
| `TunnelLaws.OwnAccountIff` | panel/public/assets/views/cloudflare.js:47-68 | a domain whose account has a tunnel gets one of that account exactly unless its own choice, or else the website's tunnel, has no known account and is kept |
| `TunnelLaws.UnknownAccountIsKept` | panel/public/assets/views/cloudflare.js:58-66 | a state in which it is |
| `TunnelLaws.PickKeepsGoodChoice` | panel/public/assets/views/cloudflare.js:60-66 | a domain keeps a tunnel that can carry it if it chose it itself or the website's tunnel can carry the first tunnelled domain |
| `TunnelLaws.PickIdempotent` | panel/public/assets/views/cloudflare.js:48-68 | picking again changes nothing, in every state; after a pick no entry is redundant |
| `TunnelLaws.ValidIff` | panel/public/assets/views/cloudflare.js:84-103 | exactly when a choice may be saved: options are there with some tunnel, every tunnelled domain has a tunnel and, when connected, is in a zone whose account is not known to be another than its tunnel's |
| `TunnelLaws.VerdictIsTrue` | panel/public/assets/views/cloudflare.js:84-103 | each reason is given exactly when it is true and no earlier one is, naming the first domain without a tunnel, all domains outside the account in order, or the first in another account |
| `TunnelLaws.PickThenValid` | panel/public/assets/views/cloudflare.js:48-103 | after a pick exactly an unusable connection, an unknown zone or a domain nothing can carry prevents saving |
| `TunnelLaws.SaveLoadIff` | panel/public/assets/views/cloudflare.js:40-76 | saving and loading keeps the tunnelled domains and each one's tunnel exactly when each has a tunnel |
| `TunnelLaws.PayloadHolds` | panel/public/assets/views/cloudflare.js:69-76 | what is stored: the tunnelled domains, the first one's tunnel as the website's, and the others' where they differ |
| `TunnelLaws.ValidIsSaved` | panel/lib/cloudflare.mjs:1169-1170 | what passes validation is saved without loss, and the server routes each domain through the tunnel shown |
| `TunnelLaws.PayloadIsStable` | panel/public/assets/views/cloudflare.js:40-76 | saving what was loaded stores the same again, in every state |
| `TunnelLaws.SwitchIsLocal` | panel/public/assets/views/cloudflare.js:204-212 | a row's switch changes only its own domain's delivery, and to Direct no tunnel |
| `TunnelLaws.SwitchServes` | panel/public/assets/views/cloudflare.js:204-212 | a domain put on the tunnel gets one that can carry it whenever its account has one or is unknown |
| `TunnelLaws.RecheckTakes` | panel/public/assets/views/cloudflare.js:225-230 | new options are taken as they are, the domains stay, and the defaults are picked |
| `TunnelLaws.DomainsChange` | panel/public/assets/views/site.js:538-549 | adding, removing and switching all domains change which are tunnelled and no tunnel of any |
| `TunnelLaws.SiteChoiceIsEverywhere` | panel/public/assets/views/cloudflare.js:213 | a tunnel chosen for the website is every tunnelled domain's |
| `TunnelLaws.ChosenIsUsed` | panel/public/assets/views/cloudflare.js:214-224 | the domain a tunnel is chosen for gets it, and so does the website exactly when it is the first tunnelled one |
| `TunnelLaws.OthersKeepTheirs` | panel/public/assets/views/cloudflare.js:214-224 | no other tunnelled domain's tunnel changes, exactly unless the choice was for the first domain and another had none |
| `TunnelLaws.AddedDomainIsNotPicked` | panel/public/assets/views/site.js:538-547 | when adding a tunnelled domain keeps a saveable choice saveable |
| `TunnelLaws.RunSavesAll` | panel/public/assets/views/cloudflare.js:203-231 | after any run of the handlers and edits of the domain list, with tunnels to choose from, every tunnelled domain has one and saving loses nothing |
| `TunnelLaws.LoadInOrder` | panel/public/assets/views/cloudflare.js:40-43 | every saved state opens in the order such runs start from |
| `TunnelLaws.LoadInOrderIff` | panel/public/assets/views/cloudflare.js:40-43 | exactly which stored choices open in that order |
| `TunnelDelivery.LongestZoneOf` | panel/public/assets/views/cloudflare.js:25-29 | the loop finds the longest zone |
| `TunnelDelivery.Picker.constructor` | panel/public/assets/views/cloudflare.js:40-43 | the picker for what is stored; not enabled counts as nothing; exactly when it is in order |
| `TunnelDelivery.Picker.PickDefaultTunnel` | panel/public/assets/views/cloudflare.js:48-68 | the two loops in place reach, in any order of the keys, the state SiteTunnelKept, PickedTunnel and PickIdempotent are about |
| `TunnelDelivery.Picker.DeliveryPayload` | panel/public/assets/views/cloudflare.js:69-76 | the payload, which loads and saves to itself |
| `TunnelDelivery.Picker.ValidateDelivery` | panel/public/assets/views/cloudflare.js:84-103 | the first thing in the way; a fine choice is saved without loss |
| `TunnelDelivery.Picker.SwitchMode` | panel/public/assets/views/cloudflare.js:204-212 | one step of the picker's runs, keeping it in order |
| `TunnelDelivery.Picker.ChooseSiteTunnel` | panel/public/assets/views/cloudflare.js:213 | one step, keeping it in order |
| `TunnelDelivery.Picker.ChooseHostTunnel` | panel/public/assets/views/cloudflare.js:214-224 | one step, after which the domain uses the tunnel, keeping it in order |
| `TunnelDelivery.Picker.OptionsArrive` | panel/public/assets/views/cloudflare.js:225-230 | one step, keeping it in order |
| `TunnelDelivery.Picker.Add` | panel/public/assets/views/site.js:538-547 | one step for a new domain, none for a known one, keeping it in order |
| `TunnelDelivery.Picker.Remove` | panel/public/assets/views/site.js:549 | one step, keeping it in order |
| `TunnelDelivery.Picker.TunnelAll` | panel/public/assets/views/wizard.js:257-261 | one step when no domain is on a tunnel yet, none else, keeping it in order |
| `Base64Url.ToB64url` | panel/public/assets/passkey.js:13-18 | the byte loop computes the url-safe text, null for no buffer |
| `Base64Url.ToBuf` | panel/public/assets/passkey.js:7-12 | the index loop fills the decoded bytes, or the text does not decode |
| `Base64Url.RoundTrip` | panel/public/assets/passkey.js:7-18 | decoding the encoded bytes gives them back, for every byte sequence |
| `Base64Url.PaddingRestored` | panel/public/assets/passkey.js:8-17 | the padding put back is exactly what encoding stripped |
| `Base64Url.EncodeIs` | panel/public/assets/passkey.js:13-18 | the text is the unpadded letters of section 5 of RFC 4648 |
| `Base64Bits.EncodesBits` | panel/public/assets/passkey.js:13-18 | letter i of the text stands for bits 6i to 6i + 5 of the bytes, by the table of section 5 of RFC 4648, zeros after the last; as many letters as the bits need |
| `Base64Bits.StandardLettersToo` | panel/public/assets/passkey.js:8 | the standard letters for 62 and 63 decode as the url-safe ones |
| `Base64Bits.OtherCharactersFail` | panel/public/assets/passkey.js:8 | text with any character that is not a letter of either alphabet, a blank or padding does not decode |
| `Base64Url.TextRoundTrip` | panel/public/assets/passkey.js:7-18 | url-safe text decodes exactly when its length is not 1 modulo 4, and encodes back to itself exactly when its dropped bits are zero |

## Left out

- Pages, dialogs, menus, icons and painting; `app.js`, `queue.js`, `activity.js` and the settings forms: display logic.
- The mock's fixtures, routes and simulations other than the job queue, and its jobs that are not heavy (they never enter the queue).
- Job queue: the ids of new jobs are fresh parameters, the job's output lines and results are not kept, and the timer of a running job is the choice of when it ends.
- Curves: the square root is any function that is one, numbers are real, and the rounding of the written coordinates is left out.
- Live events: times are the choice of which timer fires; how many errors fall in the last minute is any number up to those recorded.
- Live events: a closed event source delivers nothing more, which the browser guarantees; payloads, event types the client does not listen to, and the sign-out answer of a poll (one of the failures) are not told apart.
- Live events: a restart of the panel, and a clock set back across one, are not modelled; the server starts once and ids count on from its boot time. How long a poll is held is the choice of when it is answered.
- EventClient.LiveEvents.OnPollAnswer: the awaits of the poll loop are states of the loop (asking or sleeping), so one turn of the loop is several handlers.
- Chunked upload: refusals for size, sign-in or an unavailable database (413, 401, 503) are requests that never arrived; a piece always carries the bytes of its place in the file.
- Chunked upload: what is handed on is the temporary file as the last piece ends; its hash, and changes to it between then and the import job's reading, are not modelled, nor is the removal of uploads left over for long.
- Chunked upload: a write that the operating system still completes after its request broke off is not modelled; bytes count as written when they are in the file.
- .env text and base64url: characters are code units; the white space and line-end characters of the patterns are listed rather than taken from Unicode tables; `btoa` and `atob` are functions written from RFC 4648.
- .env text: an object key named `__proto__` and number-like keys, which JavaScript objects treat and order apart, are ordinary keys here.
- Backup stacks: the library's sort is a function proved stable and descending; times are their rank in the library's text order; the opening and closing of a stack is display state.
- Delivery picker: labels, notes and the texts of the reasons; the row list of the domains; saving itself and the server's check of ids (ids are any text).
- Delivery picker: `tunnelFor` missing and empty are one, and so are missing, null and empty ids, which the code treats alike.
- TunnelDelivery.Picker.Add: the check of what counts as a domain name, and that several may be typed at once, are left out; whether the new one is tunnelled is a parameter.
- The real panel's job queue, failover, replication and load balancing.
