# Headless tab video recorder — a Dafny model

The repository records what a headless Chrome tab shows as a video. It
gets screencast frames from the browser's DevTools protocol, de-duplicates
and saves them, and pipes raw RGB frames into an `ffmpeg` process that
encodes them. It follows recording across tabs that open and close. It
also ships a "smart" wait utility that waits for the document, for critical
network traffic and for the DOM to settle.

This project models the core of that system and proves properties of the
model. One Dafny module stands for each Java class:

| module | file | Java class |
|---|---|---|
| `Common` | common.dfy | shared: `Option`/`Result`, ASCII `toLowerCase`/`contains`/`replace`, browser target triples, attempt statistics (`PerformanceStats`, `SessionMetrics`) |
| `TestBase` | test_base.dfy | `util/TestBase` — OS detection, path separators, locating ffmpeg, dependency check |
| `SmartWait` | smart_wait.dfy | `wait/SmartWait` — request filters, the network-idle check and its polling loop, DOM stability, strategy timeouts, the page-load, element-interaction and explicit-conditions waits |
| `VideoProcessor` | video_processor.dfy | `util/OptimizedVideoProcessor` — the state machine, the bounded frame queue, the ffmpeg command line, RGB packing, the consumer loop, metrics |
| `FrameCapture` | frame_capture.dfy | `util/EnhancedFrameCaptureManager` — the circular history buffer, duplicate detection, adaptive capture interval, retrying saves, fallback counters |
| `DevToolsPool` | devtools_pool.dfy | `util/EnhancedDevToolsManager` — the pre-warmed session pool, the retry/back-off creation loop, health monitoring |
| `TabClosureFix` | tab_closure.dfy | `util/VideoRecordTabClosureFix` — per-target recording state, switching, recovery after a tab closes |
| `SpeedControl` | speed_control.dfy | `util/VideoRecordWithSpeedControl` — playback speeds, even-size cropping, auto-rebind to new tabs |

Modelling conventions:

- Anything the Java code gets from outside is a parameter of the model. That
  covers the browser, the file system, the `ffmpeg` process, the clock and
  `Thread.sleep`.
  - A DevTools call that can fail becomes a small datatype saying how it ended
    (`StartIo`, `BindIo`, `AttemptIo`, `EncoderIo`, `SaveIo`).
  - The clock is a `now` argument.
  - Sleeps are returned as a sequence of durations.
- Objects whose fields the Java code updates in place are Dafny classes with
  the same fields. Their methods state the whole new state with `old(...)`.
  The properties live in specification functions and in lemmas about those
  functions.
  - For example, `TabClosureRecorder.SwitchRecordingToTarget` ensures that its
    new state is `SwitchTo(old(State()), ...)`.
  - Lemmas about `SwitchTo` then say what switching guarantees.
- Loops in the source are `while` loops with invariants, proved against a
  function. The loops modelled this way are:
  - the polling loop of `waitForNetworkIdle`;
  - `convertToRawRGB`'s nested pixel loop, over an `array<bv8>`;
  - the retry loops of `saveFrameWithRetry` and `createSessionForTarget`;
  - the target searches of the tab-closure recorder;
  - the consumer loop of the processing pipeline.
- `CircularBuffer<T>` keeps the source's fixed-size array and head/size
  counters, with a ghost `history` of every item added.
- Doubles become exact `real`s or cross-multiplied integer comparisons.

## Model

| member | source | states |
|---|---|---|
| Common.ToLower | src/main/java/com/example/automation/util/TestBase.java:100 | String.toLowerCase on ASCII: same length, each letter A–Z lowered, every other character kept |
| Common.ReplaceChar | src/main/java/com/example/automation/util/TestBase.java:119-122 | String.replace(char, char): same length, every occurrence of `from` replaced, every other character kept |
| Common.Record | src/main/java/com/example/automation/util/EnhancedDevToolsManager.java:335-345 | one metrics update: one more attempt, one more success exactly when the attempt succeeded, the max is a running max equal to the new duration or the old max, successes never exceed attempts, and the average times the count is the sum of durations |
| Common.SuccessRateBounds | src/main/java/com/example/automation/util/EnhancedDevToolsManager.java:442-444 | getSuccessRate is a percentage in [0, 100]: 100 when every attempt succeeded, 0 when none did or none were made |
| Common.RunningAverageIsMean | src/main/java/com/example/automation/util/EnhancedFrameCaptureManager.java:376-390 | the incremental average (avg·n + d)/(n + 1) kept by the source equals the mean of all recorded durations |
| TestBase.GetOperatingSystem | src/main/java/com/example/automation/util/TestBase.java:99-108 | "windows" iff the lower-cased os.name contains "win"; "macos" iff it does not but contains "mac"; "linux" otherwise |
| TestBase.NormalizePath | src/main/java/com/example/automation/util/TestBase.java:116-124 | null stays null; otherwise the length is kept, every '/' or '\\' becomes '\\' on Windows and '/' elsewhere, and every other character is unchanged |
| TestBase.NormalizePathIdempotent | src/main/java/com/example/automation/util/TestBase.java:116-124 | normalising an already normalised path changes nothing |
| TestBase.FFmpegCandidates | src/main/java/com/example/automation/util/TestBase.java:24-50 | each platform has exactly four fixed installation candidates, tried in order |
| TestBase.CollapseSeparators | src/main/java/com/example/automation/util/TestBase.java:63 | Paths.get's collapsing of separator runs: never longer, the first character kept, and no two separators left side by side |
| TestBase.CollapseKeepsOtherCharacters | src/main/java/com/example/automation/util/TestBase.java:63 | collapsing removes separators only: the other characters stay, in order |
| TestBase.JoinPath | src/main/java/com/example/automation/util/TestBase.java:63 | Paths.get(dir, name).toString(): the result has no run of the platform separator, and on Windows no '/' |
| TestBase.TrailingSeparatorNormalised | src/main/java/com/example/automation/util/TestBase.java:63 | a directory ending in '/' is not doubled: "dir/" and a plain name give "dir/name" |
| TestBase.ForwardSlashesNormalisedOnWindows | src/main/java/com/example/automation/util/TestBase.java:63 | on Windows the directory's '/' become '\\' and it is joined to a plain name by a single '\\' |
| TestBase.PathCandidates | src/main/java/com/example/automation/util/TestBase.java:59-68 | one candidate per PATH directory, in PATH order: JoinPath of the directory with ffmpeg.exe on Windows, ffmpeg elsewhere |
| TestBase.FirstExecutable | src/main/java/com/example/automation/util/TestBase.java:52-57 | the index found is executable and no earlier path is; none found means no path is executable |
| TestBase.FFmpegPrefersFixedCandidate | src/main/java/com/example/automation/util/TestBase.java:21-57 | the first executable fixed candidate is returned whatever PATH contains |
| TestBase.FFmpegFallsBackToPath | src/main/java/com/example/automation/util/TestBase.java:59-69 | with no fixed candidate executable, the first PATH directory holding an executable ffmpeg wins |
| TestBase.FFmpegNotFound | src/main/java/com/example/automation/util/TestBase.java:52-76 | "FFmpeg not found" is thrown exactly when no fixed candidate and no PATH entry is executable |
| TestBase.CheckDependencies | src/main/java/com/example/automation/util/TestBase.java:131-154 | true iff ffmpeg is found and the Java version property is set; a missing ffmpeg yields false rather than an exception |
| SmartWait.IsCriticalRequest | src/main/java/com/example/automation/wait/SmartWait.java:420-437 | a URL matched by an ignored pattern or a resource type ignored after lower-casing is never critical; a critical request is xhr, fetch or document |
| SmartWait.CriticalIgnoresCase | src/main/java/com/example/automation/wait/SmartWait.java:420-437 | two resource types equal ignoring case are classified identically |
| SmartWait.CriticalWhenNotFiltered | src/main/java/com/example/automation/wait/SmartWait.java:420-437 | an xhr/fetch/document request whose URL no pattern matches and whose type is not ignored is critical (the converse direction of IsCriticalRequest) |
| SmartWait.RequestFilters.constructor | src/main/java/com/example/automation/wait/SmartWait.java:442-469 | the filters start as the 15 analytics/tracking URL patterns and the image, font, media and texttrack types |
| SmartWait.RequestFilters.AddIgnoredUrlPattern | src/main/java/com/example/automation/wait/SmartWait.java:484-487 | the pattern joins the URL patterns; the type set is unchanged |
| SmartWait.RequestFilters.AddIgnoredResourceType | src/main/java/com/example/automation/wait/SmartWait.java:489-492 | the type is stored lower-cased, so afterwards a request of that type in any letter case is not critical |
| SmartWait.RunStart | src/main/java/com/example/automation/wait/SmartWait.java:350-361 | the idle-start poll: every poll from it to j saw an empty critical set and the poll before it did not |
| SmartWait.PollUntilIdle | src/main/java/com/example/automation/wait/SmartWait.java:344-365 | the polling loop answers true iff some poll before the timeout finds the critical set empty and continuously empty for at least the idle time since an earlier poll; a busy poll resets the idle start |
| SmartWait.WaitForNetworkIdle | src/main/java/com/example/automation/wait/SmartWait.java:311-378 | without DevTools the answer is NetworkIdleWithoutDevTools of the sleep; a throwing Network.enable or addListener gives false; otherwise the answer is the polling loop's, i.e. some poll is IdleAt; in every case the answer is NetworkSettles |
| SmartWait.NetworkIdleWithoutDevTools | src/main/java/com/example/automation/wait/SmartWait.java:312-320 | without DevTools the check sleeps and reports idle unless the sleep is interrupted |
| SmartWait.DomStable | src/main/java/com/example/automation/wait/SmartWait.java:383-415 | stable iff the observer reports a non-null count below 5; a failing script falls back to a sleep and reports stable unless interrupted |
| SmartWait.CheckCondition | src/main/java/com/example/automation/wait/SmartWait.java:280-291 | document-ready, network-idle and DOM-stable are delegated to their checks; every other condition is false |
| SmartWait.PageLoadNetworkTimeout | src/main/java/com/example/automation/wait/SmartWait.java:194 | the network gets the largest time that is at most a third of the timeout and at most 5000 ms |
| SmartWait.InteractionNetworkTimeout | src/main/java/com/example/automation/wait/SmartWait.java:231 | the network gets the largest time that is at most half the timeout and at most 3000 ms |
| SmartWait.WaitForPageLoad | src/main/java/com/example/automation/wait/SmartWait.java:181-205 | page load fails iff the document-ready check does not finish in time |
| SmartWait.WaitForAll | src/main/java/com/example/automation/wait/SmartWait.java:236-237 | allOf(...).get succeeds iff every awaited check completed, whatever booleans they completed with |
| SmartWait.WaitForElementInteraction | src/main/java/com/example/automation/wait/SmartWait.java:210-241 | the outcomes are the locator check (if a locator is given), DomStable of the probe and the network check under InteractionNetworkTimeout, each completed iff it returned within the timeout; the wait succeeds iff all three (or two) returned in time, so a check returning false never fails it; otherwise "Element interaction wait failed" |
| SmartWait.WaitForConditions | src/main/java/com/example/automation/wait/SmartWait.java:146-176 | the explicit-conditions wait succeeds iff every check returned within the timeout, whatever they returned; otherwise "SmartWait timeout after <timeout>ms" |
| VideoProcessor.PutPixel | src/main/java/com/example/automation/util/OptimizedVideoProcessor.java:381-385 | three bytes (R, G, B of the pixel) are written at the index, the bytes before it untouched |
| VideoProcessor.PackRow | src/main/java/com/example/automation/util/OptimizedVideoProcessor.java:381-386 | one image row is packed as 3·width bytes after the bytes already written |
| VideoProcessor.ConvertToRawRgb | src/main/java/com/example/automation/util/OptimizedVideoProcessor.java:374-390 | the output has 3·width·height bytes and equals the row-major RGB packing of the image |
| VideoProcessor.RawRgbLength | src/main/java/com/example/automation/util/OptimizedVideoProcessor.java:375 | the packed frame holds 3·width·height bytes |
| VideoProcessor.RawRgbAt | src/main/java/com/example/automation/util/OptimizedVideoProcessor.java:381-385 | byte 3·(y·width + x) + c is channel c (R, G, B) of pixel (x, y) |
| Common.NatToString | src/main/java/com/example/automation/util/OptimizedVideoProcessor.java:257-258 | String.valueOf on a non-negative int: at least one digit, only digits, no leading zero |
| VideoProcessor.ParseNatToString | src/main/java/com/example/automation/util/OptimizedVideoProcessor.java:257-258 | the decimal text of a number reads back as that number |
| VideoProcessor.DimensionsRoundTrip | src/main/java/com/example/automation/util/OptimizedVideoProcessor.java:257 | the "WIDTHxHEIGHT" argument parses back to exactly the configured width and height |
| VideoProcessor.HardwareAccelerator | src/main/java/com/example/automation/util/OptimizedVideoProcessor.java:262-273 | videotoolbox on macOS, else dxva2 on Windows, else vaapi |
| VideoProcessor.FFmpegCommandShape | src/main/java/com/example/automation/util/OptimizedVideoProcessor.java:248-297 | the command's length and layout: ffmpeg -y first, then the configured WIDTHxHEIGHT size and frame rate, input from pipe:0, -hwaccel pair only with hardware acceleration, -preset/-crf 23 only for libx264/libx265, yuv420p, the output path last |
| VideoProcessor.BuildFFmpegCommand | src/main/java/com/example/automation/util/OptimizedVideoProcessor.java:248-297 | the list built step by step is the command described by FFmpegCommand |
| VideoProcessor.MaxOfBounds | src/main/java/com/example/automation/util/OptimizedVideoProcessor.java:658-662 | the kept maximum processing time bounds every recorded time, is at least 0, and is 0 or one of the times |
| VideoProcessor.ProcessingMetrics.constructor | src/main/java/com/example/automation/util/OptimizedVideoProcessor.java:652-656 | metrics start with no recorded time and an empty progress line |
| VideoProcessor.ProcessingMetrics.RecordFrameProcessed | src/main/java/com/example/automation/util/OptimizedVideoProcessor.java:658-662 | the time joins the history; count, total and max stay the count, sum and maximum of that history |
| VideoProcessor.ProcessingMetrics.RecordFFmpegProgress | src/main/java/com/example/automation/util/OptimizedVideoProcessor.java:664-666 | the progress line is replaced and nothing else changes |
| VideoProcessor.ProcessingMetrics.AverageProcessingTime | src/main/java/com/example/automation/util/OptimizedVideoProcessor.java:672-675 | 0 before any frame, otherwise the mean of every recorded processing time |
| VideoProcessor.FrameDropRate | src/main/java/com/example/automation/util/OptimizedVideoProcessor.java:714-717 | a percentage in [0, 100], 0 when nothing was seen, and otherwise exactly 100 times the dropped frames over all frames seen |
| VideoProcessor.TakeAsWritten | src/main/java/com/example/automation/util/OptimizedVideoProcessor.java:628-634 | as written: the head frame when the queue has one, and null whenever the one-second poll finds the queue empty, signalled or not |
| VideoProcessor.TakeAsWrittenEndsWithoutSignal | src/main/java/com/example/automation/util/OptimizedVideoProcessor.java:628-634 | there is an empty queue with no end-of-frames signal on which the as-written take returns the end-of-processing null |
| VideoProcessor.Take | src/main/java/com/example/automation/util/OptimizedVideoProcessor.java:628-634 | corrected: the head frame iff the queue is non-empty; end of stream iff the queue is empty and the end was signalled; otherwise keep waiting |
| VideoProcessor.OkPrefix | src/main/java/com/example/automation/util/OptimizedVideoProcessor.java:335-369 | the number of queued frames written before the first failed write (or a closed stdin): every one of them succeeded and the next did not |
| VideoProcessor.EncodedLength | src/main/java/com/example/automation/util/OptimizedVideoProcessor.java:335-369 | every frame sent to ffmpeg contributes exactly 3·width·height bytes |
| VideoProcessor.OptimizedVideoProcessor.constructor | src/main/java/com/example/automation/util/OptimizedVideoProcessor.java:43-94 | a new processor is IDLE with an empty queue, no frames counted and the default 5 fps, 1280x720, libx264 veryfast settings |
| VideoProcessor.OptimizedVideoProcessor.Configure | src/main/java/com/example/automation/util/OptimizedVideoProcessor.java:99-113 | settings are replaced iff the processor is IDLE; otherwise IllegalStateException and nothing changes |
| VideoProcessor.OptimizedVideoProcessor.StartProcessing | src/main/java/com/example/automation/util/OptimizedVideoProcessor.java:118-144 | only from IDLE: a launched encoder gives PROCESSING with the built command and an open, empty stdin; a failed launch gives ERROR; any other state fails without change |
| VideoProcessor.OptimizedVideoProcessor.AddFrame | src/main/java/com/example/automation/util/OptimizedVideoProcessor.java:149-182 | a frame is queued iff PROCESSING and fewer than 100 are queued; a full queue drops it and counts the drop; outside PROCESSING nothing changes |
| VideoProcessor.OptimizedVideoProcessor.ProcessFrameToFFmpeg | src/main/java/com/example/automation/util/OptimizedVideoProcessor.java:335-369 | a successful write appends the resized frame's RGB bytes to stdin, counts the frame and records its time; a failed write changes none of these |
| VideoProcessor.OptimizedVideoProcessor.ConsumeNext | src/main/java/com/example/automation/util/OptimizedVideoProcessor.java:308-316 | one consumer step: the head frame is removed and written, or the failed write puts the processor in ERROR and ends the consumer |
| VideoProcessor.OptimizedVideoProcessor.RunPipeline | src/main/java/com/example/automation/util/OptimizedVideoProcessor.java:303-330 | the consumer writes the queued frames in order up to the first failed write; stdin then holds exactly those frames' bytes; a failure means ERROR, otherwise the queue is drained |
| VideoProcessor.OptimizedVideoProcessor.FinishProcessing | src/main/java/com/example/automation/util/OptimizedVideoProcessor.java:187-222 | only from PROCESSING: end of frames is signalled and, when the consumer is running, it writes queued frames in order until the first failed write (a failure drops that frame and stops it), their encodings appended to stdin, their times to the history, the rest left queued; when the consumer had stopped nothing is written; stdin is closed; an exit code gives COMPLETED with a result reporting the frames written, dropped and their mean time; a missing exit gives ERROR |
| VideoProcessor.OptimizedVideoProcessor.ParseFFmpegProgress | src/main/java/com/example/automation/util/OptimizedVideoProcessor.java:444-455 | a stderr line containing "frame=" becomes the last progress; the frame metrics are unchanged |
| VideoProcessor.OptimizedVideoProcessor.Shutdown | src/main/java/com/example/automation/util/OptimizedVideoProcessor.java:534-586 | SHUTTING_DOWN, the queue cleared, stdin closed and the consumer stopped, counters kept |
| FrameCapture.CircularBuffer.constructor | src/main/java/com/example/automation/util/EnhancedFrameCaptureManager.java:547-550 | an empty buffer of the given capacity |
| FrameCapture.CircularBuffer.Add | src/main/java/com/example/automation/util/EnhancedFrameCaptureManager.java:552-556 | the item is added after everything added before, overwriting the oldest when full |
| FrameCapture.CircularBuffer.GetRecentItems | src/main/java/com/example/automation/util/EnhancedFrameCaptureManager.java:558-570 | the last min(added, capacity) items added, oldest first |
| FrameCapture.Successes | src/main/java/com/example/automation/util/EnhancedFrameCaptureManager.java:413-414 | the number of successful frames is at most the number of frames |
| FrameCapture.SummaryCounts | src/main/java/com/example/automation/util/EnhancedFrameCaptureManager.java:376-390 | the statistics after a run of updates count every frame, count the successful ones and sum their times |
| FrameCapture.SummaryMaxBounds | src/main/java/com/example/automation/util/EnhancedFrameCaptureManager.java:376-390 | the kept maximum processing time is at least 0 and bounds every recorded time |
| FrameCapture.NewInterval | src/main/java/com/example/automation/util/EnhancedFrameCaptureManager.java:408-440 | below 5 samples nothing changes; poor performance adds 50 ms up to 1000; excellent performance removes 25 ms down to 50; otherwise unchanged; from a valid interval the result stays in [50, 1000] and moves up or down only for those reasons |
| FrameCapture.RetrySaveMeaning | src/main/java/com/example/automation/util/EnhancedFrameCaptureManager.java:255-273 | a save succeeds iff some attempt's write succeeds and every earlier attempt failed without an interrupted back-off; the back-off before attempt k+1 is 50·k ms |
| FrameCapture.SaveFrameWithRetry | src/main/java/com/example/automation/util/EnhancedFrameCaptureManager.java:255-273 | the retry loop's result and sleeps are those RetrySave describes |
| FrameCapture.ActivateFallback | src/main/java/com/example/automation/util/EnhancedFrameCaptureManager.java:479-490 | the failure counter resets and the mechanism flags are kept; the capture interval becomes double the old one or 1000 ms, whichever is smaller, so it never exceeds 1000 ms and does not shrink from a valid interval |
| FrameCapture.OnFailure | src/main/java/com/example/automation/util/EnhancedFrameCaptureManager.java:445-474 | a frame failure counts, and past 5 activates the fallback; a timed-capture failure past 3 turns timed capture off; a DOM-trigger failure past 5 turns DOM triggers off; no failure turns a mechanism on |
| FrameCapture.FailuresKeepFallbackInvariants | src/main/java/com/example/automation/util/EnhancedFrameCaptureManager.java:445-490 | over any run of failures a disabled mechanism stays disabled and a valid capture interval stays in [50, 1000] |
| FrameCapture.FrameFailuresBoundCounter | src/main/java/com/example/automation/util/EnhancedFrameCaptureManager.java:445-452 | however many frame failures occur, the counter never exceeds 5, because the sixth activates the fallback and resets it |
| FrameCapture.PruneHashes | src/main/java/com/example/automation/util/EnhancedFrameCaptureManager.java:495-499 | exactly the hashes seen at most 10 s ago remain, with their times |
| FrameCapture.RememberedHashIsDuplicateWithinWindow | src/main/java/com/example/automation/util/EnhancedFrameCaptureManager.java:202-215 | a hash just remembered marks the same hash a duplicate for the next second |
| FrameCapture.RememberKeepsRecentHashes | src/main/java/com/example/automation/util/EnhancedFrameCaptureManager.java:209-215 | remembering a hash (with its pruning) never forgets another hash seen within 10 s |
| FrameCapture.FrameCaptureManager.constructor | src/main/java/com/example/automation/util/EnhancedFrameCaptureManager.java:50-94 | no frames, no hashes, interval 200 ms, both mechanisms on, empty history and statistics |
| FrameCapture.FrameCaptureManager.IsDuplicateFrame | src/main/java/com/example/automation/util/EnhancedFrameCaptureManager.java:194-223 | a duplicate iff the hash was seen less than a second ago; a new hash is remembered (pruning when the map holds over 100); nothing else changes |
| FrameCapture.FrameCaptureManager.CleanupOldFrameHashes | src/main/java/com/example/automation/util/EnhancedFrameCaptureManager.java:495-499 | the hash map becomes its pruned form; nothing else changes |
| FrameCapture.FrameCaptureManager.AcknowledgeFrame | src/main/java/com/example/automation/util/EnhancedFrameCaptureManager.java:278-284 | the frame's session id is acknowledged after all earlier ones |
| FrameCapture.FrameCaptureManager.UpdatePerformanceMetrics | src/main/java/com/example/automation/util/EnhancedFrameCaptureManager.java:376-390 | the frame's metrics join the history and the statistics take one Record step |
| FrameCapture.FrameCaptureManager.AdjustCaptureInterval | src/main/java/com/example/automation/util/EnhancedFrameCaptureManager.java:408-440 | the interval becomes NewInterval of the last ten history entries |
| FrameCapture.FrameCaptureManager.ActivateFallbackMechanism | src/main/java/com/example/automation/util/EnhancedFrameCaptureManager.java:479-490 | the fallback state becomes ActivateFallback of the old one |
| FrameCapture.FrameCaptureManager.RecordFailure | src/main/java/com/example/automation/util/EnhancedFrameCaptureManager.java:445-474 | the fallback state takes one OnFailure step of the given kind |
| FrameCapture.FrameCaptureManager.TriggerFrameCapture | src/main/java/com/example/automation/util/EnhancedFrameCaptureManager.java:319-371 | with DOM triggers on, an exception (None) or a result starting with "error" records a DOM-trigger failure; otherwise the fallback state is unchanged |
| FrameCapture.FrameCaptureManager.SetupAdaptiveTimedCapture | src/main/java/com/example/automation/util/EnhancedFrameCaptureManager.java:289-314 | the timer starts iff timed capture is on and scheduling succeeds; a scheduling failure activates the fallback |
| FrameCapture.FrameCaptureManager.DecodeAndSave | src/main/java/com/example/automation/util/EnhancedFrameCaptureManager.java:131-174 | a decoded frame of at least 100x100 is numbered and recorded as processed; the save succeeds iff it is accepted and the retrying save succeeds; only a success updates the last frame time |
| FrameCapture.FrameCaptureManager.ProcessFrame | src/main/java/com/example/automation/util/EnhancedFrameCaptureManager.java:127-189 | the frame is always acknowledged and its metrics recorded; a frame counted (at least 100 x 100) gets the next frame number and joins processedFrameIds; a failure records a frame failure and leaves lastFrameTimestamp unchanged, a success sets it to now |
| FrameCapture.FrameCaptureManager.OnScreencastFrame | src/main/java/com/example/automation/util/EnhancedFrameCaptureManager.java:99-125 | every frame is acknowledged; a frame is a duplicate iff its hash was stored less than the duplicate window before; a duplicate is skipped without touching metrics, counters, processedFrameIds, lastFrameTimestamp or fallback; any other frame is processed: counted iff its image is at least 100 x 100, successful iff it was also saved within the retries, its number added to processedFrameIds when counted, lastFrameTimestamp set to now only on success, and its metrics, statistics and fallback state updated as a failure or success; a new hash is remembered (with pruning) and the hash map is otherwise unchanged |
| FrameCapture.FrameCaptureManager.Shutdown | src/main/java/com/example/automation/util/EnhancedFrameCaptureManager.java:511-535 | hashes and processed ids are cleared; counters, statistics and fallback state are kept |
| FrameCapture.IsValidFrame | src/main/java/com/example/automation/util/EnhancedFrameCaptureManager.java:228-250 | valid iff both sides are at least 100 pixels; the uniform-colour warning fires iff the 50x50 sample is all one colour, and does not reject the frame |
| DevToolsPool.RunAttempts | src/main/java/com/example/automation/util/EnhancedDevToolsManager.java:124-165 | the loop makes at most 3 attempts |
| DevToolsPool.RunConsumesFront | src/main/java/com/example/automation/util/EnhancedDevToolsManager.java:128-139 | the loop only takes handles from the head of the pool, at most one per attempt |
| DevToolsPool.RunPrefersPool | src/main/java/com/example/automation/util/EnhancedDevToolsManager.java:128-150 | with a non-empty pool a success consumes a pooled handle, and when the pool is not emptied the handle returned is the last one polled |
| DevToolsPool.RunBackoff | src/main/java/com/example/automation/util/EnhancedDevToolsManager.java:124-163 | the retry loop sleeps 500 ms times the attempt number after exactly those attempts that time out creating a fresh session (not on a failed rebind of a pooled handle, not after a creation that returns null, not after the last attempt), as long as every earlier attempt moved on |
| DevToolsPool.RunBackoffBounds | src/main/java/com/example/automation/util/EnhancedDevToolsManager.java:156-163 | the sleeps are exactly Backoffs (500 ms times each attempt that fails by timing out, after the pooled handles are used up, in attempt order, up to the last retry), and each is a multiple of 500 ms, at least 500 ms times the first attempt and below 1500 ms |
| DevToolsPool.RunBackoffIncreasing | src/main/java/com/example/automation/util/EnhancedDevToolsManager.java:156-163 | the back-off sleeps strictly increase |
| DevToolsPool.Acquire | src/main/java/com/example/automation/util/EnhancedDevToolsManager.java:124-165 | the retry loop's handle, remaining pool, sleeps and last cause are those Run describes |
| DevToolsPool.DevToolsSession.constructor | src/main/java/com/example/automation/util/EnhancedDevToolsManager.java:404-408 | a session records its target, handle and creation time and starts healthy |
| DevToolsPool.DevToolsSession.MarkUnhealthy | src/main/java/com/example/automation/util/EnhancedDevToolsManager.java:414 | the session is no longer healthy |
| DevToolsPool.Obtained | src/main/java/com/example/automation/util/EnhancedDevToolsManager.java:86-100 | the pool receives at most one handle per creation tried, only from the creations that produced one |
| DevToolsPool.SessionManager.constructor | src/main/java/com/example/automation/util/EnhancedDevToolsManager.java:68-112 | the pool holds the handles the five pre-warm creations produced; no active session, empty metrics |
| DevToolsPool.SessionManager.CreateSessionForTarget | src/main/java/com/example/automation/util/EnhancedDevToolsManager.java:117-182 | the loop's handle becomes a fresh healthy session registered for the target, with a successful metrics update; failure throws the "after 3 attempts" message with the timeout cause if one occurred and records a failed attempt |
| DevToolsPool.SessionManager.Register | src/main/java/com/example/automation/util/EnhancedDevToolsManager.java:141-177 | a handle is wrapped and registered with a success update; no handle is an exception with a failure update |
| DevToolsPool.SessionManager.GetSessionForTarget | src/main/java/com/example/automation/util/EnhancedDevToolsManager.java:244-246 | the registered session of the target, or null if there is none |
| DevToolsPool.SessionManager.CleanupSession | src/main/java/com/example/automation/util/EnhancedDevToolsManager.java:251-267 | the target is unregistered; its handle returns to the pool iff it was healthy, clearing its listeners succeeded and the pool had room |
| DevToolsPool.SessionManager.EvictStaleSessions | src/main/java/com/example/automation/util/EnhancedDevToolsManager.java:285-301 | exactly the unhealthy sessions and those older than five minutes are removed and the count returned; the others keep their sessions; the pool keeps its old handles at its head and gains, up to five in all, the handles of distinct removed sessions that were healthy and whose listeners cleared, one per such session while there is room, and no other handle |
| DevToolsPool.SessionManager.ReplenishSessionPool | src/main/java/com/example/automation/util/EnhancedDevToolsManager.java:310-330 | as many creations are requested as the pool is short of 5, and the ones that succeed join the pool's tail |
| DevToolsPool.SessionManager.MonitorSessionHealth | src/main/java/com/example/automation/util/EnhancedDevToolsManager.java:285-305 | stale sessions are evicted as EvictStaleSessions states; the pool is then topped up to five: the number of creations requested is five minus the pool size after the sweep, and the handles obtained are appended after the recycled ones |
| DevToolsPool.SessionManager.Shutdown | src/main/java/com/example/automation/util/EnhancedDevToolsManager.java:357-393 | no session stays registered and the pool is empty |
| TabClosureFix.FirstFrom | src/main/java/com/example/automation/util/VideoRecordTabClosureFix.java:220-231 | the index found is at or after the start and selects a matching target |
| TabClosureFix.FirstFromMeaning | src/main/java/com/example/automation/util/VideoRecordTabClosureFix.java:220-241 | the index found is the first match; none found means no target matches |
| TabClosureFix.FirstIdListed | src/main/java/com/example/automation/util/VideoRecordTabClosureFix.java:209-247 | any id a search returns is in the browser's target list |
| TabClosureFix.NextAvailableMeaning | src/main/java/com/example/automation/util/VideoRecordTabClosureFix.java:209-247 | the next target is the first page whose id differs from the one being recorded; none exists iff no such page is listed |
| TabClosureFix.CurrentTargetMeaning | src/main/java/com/example/automation/util/VideoRecordTabClosureFix.java:294-332 | when a page shows the driver's URL the first such page is chosen; otherwise the first page target; no target is found iff no page is listed |
| TabClosureFix.FindNextAvailableTarget | src/main/java/com/example/automation/util/VideoRecordTabClosureFix.java:209-247 | the loop returns what NextAvailable describes, null when the target list cannot be read |
| TabClosureFix.GetCurrentTargetId | src/main/java/com/example/automation/util/VideoRecordTabClosureFix.java:294-332 | the two loops return what CurrentTarget describes: the page with the current URL, else the first page |
| TabClosureFix.Start | src/main/java/com/example/automation/util/VideoRecordTabClosureFix.java:365-405 | recording starts iff a valid existing or new session exists and the screencast starts; then the target records with a zero frame count; every other target is unchanged |
| TabClosureFix.Stop | src/main/java/com/example/automation/util/VideoRecordTabClosureFix.java:410-432 | the target is marked not recording (the entry is created if absent); nothing else changes |
| TabClosureFix.Cleanup | src/main/java/com/example/automation/util/VideoRecordTabClosureFix.java:481-514 | the target's session, recording flag and frame count are removed; other targets and the current target are unchanged |
| TabClosureFix.Attempt | src/main/java/com/example/automation/util/VideoRecordTabClosureFix.java:341-351 | one switch attempt: a success records the new target from zero and has stopped the previously recorded one; other targets only lose their recording flag |
| TabClosureFix.SwitchToKeeps | src/main/java/com/example/automation/util/VideoRecordTabClosureFix.java:337-360 | a switch keeps the state well formed and, unless the model ran out of attempts, leaves either the old current target or a target recording from zero |
| TabClosureFix.RecoverKeeps | src/main/java/com/example/automation/util/VideoRecordTabClosureFix.java:519-541 | recovery keeps the same guarantee |
| TabClosureFix.SwitchToMainKeeps | src/main/java/com/example/automation/util/VideoRecordTabClosureFix.java:253-289 | switching to the main target keeps the same guarantee |
| TabClosureFix.SwitchToUntouched | src/main/java/com/example/automation/util/VideoRecordTabClosureFix.java:337-360 | a switch changes no target other than the destination and the listed ones |
| TabClosureFix.RecoverUntouched | src/main/java/com/example/automation/util/VideoRecordTabClosureFix.java:519-541 | recovery changes no target the browser does not list |
| TabClosureFix.SwitchToMainUntouched | src/main/java/com/example/automation/util/VideoRecordTabClosureFix.java:253-289 | switching to the main target changes no target the browser does not list |
| TabClosureFix.SwitchToFirstAttempt | src/main/java/com/example/automation/util/VideoRecordTabClosureFix.java:337-351 | when the first attempt can start the screencast, the switch makes that target current and recording from zero |
| TabClosureFix.TargetDestroyedEffect | src/main/java/com/example/automation/util/VideoRecordTabClosureFix.java:157-203 | a closed tab loses its session and frame count and stops recording; closing another tab changes nothing else; closing the recorded tab leaves the current target either unchanged or a new target recording from zero |
| TabClosureFix.VideoCommand | src/main/java/com/example/automation/util/VideoRecordTabClosureFix.java:673-728 | no video without frames; otherwise the 13-argument ffmpeg command at 5 fps with normalised input pattern and output path |
| TabClosureFix.TabClosureRecorder.constructor | src/main/java/com/example/automation/util/VideoRecordTabClosureFix.java:52-89 | empty maps, no current target, not recording, auto-rebind on |
| TabClosureFix.TabClosureRecorder.StartRecordingOnTarget | src/main/java/com/example/automation/util/VideoRecordTabClosureFix.java:365-405 | the new state and result are those Start describes |
| TabClosureFix.TabClosureRecorder.StopRecordingOnTarget | src/main/java/com/example/automation/util/VideoRecordTabClosureFix.java:410-432 | the new state is the one Stop describes |
| TabClosureFix.TabClosureRecorder.CleanupSessionForTarget | src/main/java/com/example/automation/util/VideoRecordTabClosureFix.java:481-514 | the new state is the one Cleanup describes |
| TabClosureFix.TabClosureRecorder.SwitchRecordingToTarget | src/main/java/com/example/automation/util/VideoRecordTabClosureFix.java:337-360 | the new state is the one SwitchTo describes |
| TabClosureFix.TabClosureRecorder.AttemptRecordingRecovery | src/main/java/com/example/automation/util/VideoRecordTabClosureFix.java:519-541 | the new state is the one Recover describes |
| TabClosureFix.TabClosureRecorder.SwitchRecordingToMainTarget | src/main/java/com/example/automation/util/VideoRecordTabClosureFix.java:253-289 | the new state is the one SwitchToMain describes |
| TabClosureFix.TabClosureRecorder.HandleTargetCreated | src/main/java/com/example/automation/util/VideoRecordTabClosureFix.java:131-151 | a switch is scheduled iff a page was created while recording with auto-rebind on; otherwise nothing changes |
| TabClosureFix.TabClosureRecorder.HandleTargetDestroyed | src/main/java/com/example/automation/util/VideoRecordTabClosureFix.java:157-203 | the new state is the one TargetDestroyed describes |
| TabClosureFix.TabClosureRecorder.HandleScreencastFrame | src/main/java/com/example/automation/util/VideoRecordTabClosureFix.java:546-572 | the global frame counter always grows by one; the target's count grows iff it has one; sessions and recording flags are unchanged |
| TabClosureFix.TabClosureRecorder.StartRecording | src/main/java/com/example/automation/util/VideoRecordTabClosureFix.java:577-605 | the counter resets; recording starts iff a current target is found and Start succeeds on it, and then it becomes current; a failure throws "Recording start failed" |
| TabClosureFix.TabClosureRecorder.CleanupAllSessions | src/main/java/com/example/automation/util/VideoRecordTabClosureFix.java:639-649 | every active target is cleaned up: no session, no frame count, no current target; recording flags of inactive targets stay |
| TabClosureFix.TabClosureRecorder.StopRecordingAndGenerateVideo | src/main/java/com/example/automation/util/VideoRecordTabClosureFix.java:610-634 | the current target is stopped, every session cleaned up, recording ends, and the command VideoCommand gives for the frames counted is produced; the frame counter and the auto-rebind flag are unchanged |
| TabClosureFix.TabClosureRecorder.Close | src/main/java/com/example/automation/util/VideoRecordTabClosureFix.java:782-809 | a recording session is stopped, its video command produced and its sessions, frame counts and recording flags cleared as StopRecordingAndGenerateVideo states; otherwise nothing changes; the frame counter and the auto-rebind flag are unchanged either way |
| TabClosureFix.TabClosureRecorder.SetAutoRebindEnabled | src/main/java/com/example/automation/util/VideoRecordTabClosureFix.java:746-749 | only the auto-rebind flag changes |
| SpeedControl.EvenDimension | src/main/java/com/example/automation/util/VideoRecordWithSpeedControl.java:537-538 | the largest even number not above n: n itself iff n is even |
| SpeedControl.CropSize | src/main/java/com/example/automation/util/VideoRecordWithSpeedControl.java:535-540 | an image is left alone iff both sides are even; an odd side loses one pixel; a crop that would leave a side of zero pixels is an error, as getSubimage throws |
| SpeedControl.CropSizeIdempotent | src/main/java/com/example/automation/util/VideoRecordWithSpeedControl.java:535-540 | a cropped frame needs no further crop |
| SpeedControl.EvenCropFrames | src/main/java/com/example/automation/util/VideoRecordWithSpeedControl.java:532-545 | the walk succeeds iff every frame can be cropped, and then each frame has the size CropSize gives it, with even sides |
| SpeedControl.GetAnyTopPageTargetIdFound | src/main/java/com/example/automation/util/VideoRecordWithSpeedControl.java:523-530 | the id found is that of the first target whose type is "page" in any letter case |
| SpeedControl.GetAnyTopPageTargetIdFails | src/main/java/com/example/automation/util/VideoRecordWithSpeedControl.java:523-530 | the search fails iff no target is a page |
| SpeedControl.VideoCommand | src/main/java/com/example/automation/util/VideoRecordWithSpeedControl.java:425-433 | the 13-argument ffmpeg command with the speed's frame rate and normalised input pattern and output path |
| SpeedControl.GenerateVideo | src/main/java/com/example/automation/util/VideoRecordWithSpeedControl.java:378-475 | a video results iff every frame could be cropped, a first frame was saved, ffmpeg exited with 0 and the file exists, and then the command used is VideoCommand; a failed crop aborts first |
| SpeedControl.SpeedControlRecorder.constructor | src/main/java/com/example/automation/util/VideoRecordWithSpeedControl.java:92-179 | slow motion, 400 ms interval, no bound target, auto-rebind off, no timer |
| SpeedControl.SpeedControlRecorder.SetVideoSpeed | src/main/java/com/example/automation/util/VideoRecordWithSpeedControl.java:182-185 | only the speed changes |
| SpeedControl.SpeedControlRecorder.SetCaptureInterval | src/main/java/com/example/automation/util/VideoRecordWithSpeedControl.java:187-190 | only the capture interval changes |
| SpeedControl.SpeedControlRecorder.SetAutoRebindEnabled | src/main/java/com/example/automation/util/VideoRecordWithSpeedControl.java:193-196 | only the auto-rebind flag changes |
| SpeedControl.SpeedControlRecorder.BindAndStart | src/main/java/com/example/automation/util/VideoRecordWithSpeedControl.java:233-294 | success iff every step succeeds, making the target current with a running timer; each step that succeeded before a failure leaves its session or listener registered; a failure throws "Failed to start recording on target ..." |
| SpeedControl.BoundSessions | src/main/java/com/example/automation/util/VideoRecordWithSpeedControl.java:238-240 | the target gains a session entry iff session creation did not throw |
| SpeedControl.BoundListeners | src/main/java/com/example/automation/util/VideoRecordWithSpeedControl.java:245-270 | the target gains a listener entry iff neither session creation nor page enabling threw (the entry is stored before the listener is added) |
| SpeedControl.SpeedControlRecorder.StopRecordingOnTarget | src/main/java/com/example/automation/util/VideoRecordWithSpeedControl.java:324-353 | stopping the recorded target clears it and makes the timer stop triggering; another target changes nothing |
| SpeedControl.SpeedControlRecorder.CleanupTarget | src/main/java/com/example/automation/util/VideoRecordWithSpeedControl.java:355-375 | the target loses its session and listener and stops being recorded |
| SpeedControl.SpeedControlRecorder.OnTargetCreated | src/main/java/com/example/automation/util/VideoRecordWithSpeedControl.java:139-172 | non-page targets change nothing; a page becomes the last created one; it is rebound to iff auto-rebind is on and another target is recorded; then the rebind's success decides whether it becomes current (with the timer moved to it) or none is, and its session and listener are registered as far as binding got; otherwise the recorded target, sessions, listeners and timer are unchanged |
| SpeedControl.SpeedControlRecorder.RecordNewlyOpenedTab | src/main/java/com/example/automation/util/VideoRecordWithSpeedControl.java:211-227 | without a newly created page it fails with the "window.open()" message and changes nothing; otherwise the recorded target is stopped and that page bound: it becomes current (with the timer) iff binding succeeds, none is current otherwise, and its session and listener are registered as far as binding got |
| SpeedControl.SpeedControlRecorder.StartRecording | src/main/java/com/example/automation/util/VideoRecordWithSpeedControl.java:199-208 | without a page target it fails with the lookup's message and changes nothing; otherwise the first page is bound: it becomes current (with the timer) iff binding succeeds, the recorded target is kept otherwise, and its session and listener are registered as far as binding got |
| SpeedControl.SpeedControlRecorder.Cleanup | src/main/java/com/example/automation/util/VideoRecordWithSpeedControl.java:496-520 | every target loses its session and listener, the timer stops, nothing is recorded |

## Left out

- I/O and processes are not modelled. The model does not cover the
  browser, the frame files on disk, ImageIO decoding, the `ffmpeg` process
  and its stderr monitor, thread pools, `CompletableFuture` scheduling,
  logging, `System.out` messages or the emoji decorations in messages. Each
  of these is a parameter or is absent.
- Concurrency is not modelled. Every method runs atomically. The
  `synchronized` blocks, `volatile` fields, atomic counters and races
  between listeners and timers cannot be expressed.
- `Common.ToLower` folds only ASCII letters, whereas Java's `toLowerCase`
  is Unicode-aware. Every case-insensitive comparison inherits this.
- Regular expressions (`Pattern.matcher(url).find()`) are an uninterpreted
  parameter `find`.
- Doubles are not modelled bit for bit. Averages and rates are exact
  `real`s, so rounding is not modelled.
- `long` and `int` overflow is not modelled. Counters and times are
  unbounded integers.
- Frames are images given as rows of 32-bit ARGB pixels. `resizeImage`'s
  bilinear interpolation is a parameter; the only requirement is that it
  yields the requested size.
- The recursion between switching, recovery and switching to the main
  target in the tab-closure recorder runs on a fuel sequence `ios` of
  per-attempt outcomes. When it is empty the model stops and reports
  `exhausted`, whereas the source would keep recursing until the stack
  overflows.
- Several parts are not covered:
  - the strategy executors of `SmartWait` other than page load, element
    interaction and the explicit-conditions wait (AJAX, animation,
    `until(strategy)` dispatch);
  - `WaitUtils`;
  - the `LoggerMechanism`.
  - The logger is not part of this model, and the `VideoRecordInHeadless`
    recorder is not part of this model.
- Output file naming, the frame directory's creation and clearing, and
  `clearDEVTOOLS` are file-system work and are left out.
- The pre-warm timeout of `initializeSessionPool` is not modelled. Each
  pre-warm creation is given as succeeded or failed.
- The time `ffmpeg` takes to finish is not modelled. `waitForFFmpegCompletion`
  (OptimizedVideoProcessor.java:477-509) is reduced to "an exit code, or none
  within the timeout".
- `waitForFrameProcessingComplete` gives the consumer at most 30 s
  (OptimizedVideoProcessor.java:460-472). The model lets the consumer drain
  the queue completely. The timeout path, where the encoder's input is
  closed while the consumer is still writing, is not modelled. When the
  consumer had already stopped, no queued frame is written.
- `SmartWait.WaitForNetworkIdle` does not model an interruption of the
  50 ms sleep between polls, which the source turns into false
  (SmartWait.java:362, caught at 368); a throwing setup is modelled.
- `SmartWait.WaitForElementInteraction` and `SmartWait.WaitForConditions`
  take how long each check runs as a parameter. Thread scheduling is not
  modelled, and the exception's own message after the colon is dropped.
- `VideoProcessor.OptimizedVideoProcessor.ConsumeNext` treats a write as
  either written or failed. A non-IO exception in `processFrameToFFmpeg`
  (OptimizedVideoProcessor.java:335-369, caught at 366-368) skips the frame
  without counting it, and that path is not modelled.
- `VideoProcessor.OptimizedVideoProcessor.AddFrame` always receives an image.
  `addFrame` (OptimizedVideoProcessor.java:149-176) also accepts a null
  image, which the model's frames cannot express.
- `SpeedControl.GenerateVideo` takes the ffmpeg path as given. The source
  first calls `TestBase.getFFmpegPath()` (VideoRecordWithSpeedControl.java:392),
  which throws "FFmpeg not found" before the frame check; that lookup is
  modelled by `TestBase` and not chained here.
- `TestBase.JoinPath` models only the separator handling of `Paths.get`:
  the Windows '/' to '\\' conversion and the collapsing of separator runs.
  A trailing separator is not stripped. Drive letters and UNC prefixes are
  not treated specially, and the `InvalidPathException` for illegal
  characters is not modelled. "." and ".." are kept as they are, as
  `Paths.get` does.
- `SpeedControl.EvenCropFrames` takes the frames' sizes in directory order.
  A frame that ImageIO cannot read is not modelled.
- `VideoProcessor.OptimizedVideoProcessor.Configure` takes the frame rate,
  width and height as natural numbers, so a negative setting is not
  modelled. `configure` (OptimizedVideoProcessor.java:98-112) stores such a
  value without a check. It then reaches the `-s` and `-r` arguments of the
  command (257-258), and `resizeImage` (395-396) throws for it, as it does
  for a zero side, which the model accepts. That exception is the
  skipped-frame path left out above.
- `SpeedControl.CropSize` and `SpeedControl.GenerateVideo` report a failed
  crop with the placeholder message "getSubimage: empty crop". The source's
  exception is thrown inside `getSubimage` and carries the JDK's own message,
  which the model does not reproduce.
- The tab-closure recorder's `normalizePath` (VideoRecordTabClosureFix.java:733-741)
  throws on a null path where `TestBase.normalizePath` returns null. It is
  only called with non-null paths, so both are modelled by
  `TestBase.NormalizePath`.

### Source behaviour worth noting

- `finishProcessing` sets the state to COMPLETED whenever `ffmpeg` exits,
  whatever the exit code. Only the result's `success` flag reflects a
  non-zero code.
- The back-off in `createSessionForTarget` is linear: it sleeps 500 ms
  times the attempt number, although the comment on that line
  (EnhancedDevToolsManager.java:158) calls it exponential. A failed rebind
  of a pooled handle moves on to the next attempt without creating a fresh
  session in the same attempt.
- `addFrame` numbers a frame `framesWritten + 1`. Frames queued before the
  consumer writes any of them share a number.
- In the tab-closure recorder, after the recorded tab closes,
  `switchRecordingToTarget` stops the closed id again. That re-creates a
  `recording = false` entry for it, which `cleanupAllSessions` never
  removes. `TargetDestroyedEffect` states this as
  `id in r.recording ==> !r.recording[id]`.
- The speeds' frame rates are 1, 2, 5 and 10 fps for VERY_SLOW,
  SLOW_MOTION, REAL_TIME and FAST. FAST is twice real time, SLOW_MOTION
  2.5 times slower and VERY_SLOW 5 times slower, although the enum's
  descriptions (VideoRecordWithSpeedControl.java:69-71) say "2x slower" and
  "4x slower". The model keeps the rates; the default speed, SLOW_MOTION,
  is slower than real time.
- `handleScreencastFrame` increments the global counter before it looks up
  the target's count. A frame for an unknown target is therefore counted
  globally only.

## Findings

| source | as written | input that shows it | evidently intended | confidence | as-written member | corrected member |
|---|---|---|---|---|---|---|
| src/main/java/com/example/automation/util/OptimizedVideoProcessor.java:628-634 | `take()` returns the poll's result, which is null whenever the queue stays empty for one second; the end-of-frames test only chooses between two nulls | an empty queue with `endOfFrames == false`: the poll times out and `take()` returns null, and the pipeline loop (lines 308-314) reads that as the end signal and stops consuming, so frames added later are never written | null only once the end of frames is signalled and the queue is empty; otherwise keep waiting | not executed | VideoProcessor.TakeAsWritten (with VideoProcessor.TakeAsWrittenEndsWithoutSignal) | VideoProcessor.Take (used by OptimizedVideoProcessor.RunPipeline) |
