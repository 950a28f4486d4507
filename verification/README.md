# Rep counting and CV streaming, modelled in Dafny

This project models the logic core of a workout-tracking application:

- **The repetition detector.** `SimpleRepDetector` is a four-phase hysteresis
  machine over the mean of two joint angles. It is defined in
  `quantprocess/RepTracker.py` and appears again, line for line the same, in
  `cv/datahandler.py` (lines 11-73). Module `RepDetector` models the class once.
  The rows below cite the `RepTracker.py` lines, and they hold equally for the
  copy.
- **Rep bookkeeping** in `cv/datahandler.py` (module `RepSummary`): the pushup
  entry of `WORKOUT_TO_PARAMETERS`, `rep_summary`, and the lazy-initialise,
  feed, append and summarise path of `run_workout`. A worked example of eight
  pushup frames is evaluated end to end.
- **The MJPEG server** in `cv/cv_stream_server.py`:
  - `MjpegPart` covers the bytes one poll writes, with a reader that recovers
    the payloads from them.
  - `Decimal` covers the `%d` rendering of the content length.
  - `StreamServer` covers request routing, the one-frame slot, and the capture
    loop's publish and stop rules.
- **The desktop shell's commands** in `front/src-tauri/src/lib.rs`:
  - `TauriSession` covers `start_cv_feed`, `stop_cv_feed` and `write_workout_id`.
  - `Whitespace` covers `split_whitespace` as used on session-script command
    lines.
  - `RepLog` covers the line aggregation of `get_rep_count`.

`Wrappers` holds the shared `Option`/`Result` types and two sequence helpers.

Every operation is a pure function over immutable data. Threads, locks,
sockets, sleeps and the file system are not modelled. What the code reads from
them is a parameter instead:
- the joint angles of a tick;
- the steps the camera produces;
- whether the repository root resolves;
- what a spawn returns;
- the text of the reps log;
- a JSON line parser.

Angles and timestamps are mathematical reals, not floats.

## Model

| member | source | states |
|---|---|---|
| `RepDetector.TrackedAngle` | quantprocess/RepTracker.py:16-21 | the tracked angle is present exactly when both joints are present; it is their mean, equidistant from both and between them |
| `RepDetector.Init` | quantprocess/RepTracker.py:7-14 | a new detector waits for the top with no previous angle and no samples, and satisfies the detector invariant |
| `RepDetector.FeedAngle` | quantprocess/RepTracker.py:23-63 | an absent angle changes nothing; the first angle only seeds `prev_angle`; WaitingTop moves to Descending iff the angle is at least the top threshold, with that tick as the only sample; Descending moves to BottomReached iff the angle is at most the bottom threshold; BottomReached moves to Ascending iff the angle rose; a rep is returned iff Ascending meets the top threshold, it is the accumulated samples followed by this tick, and the detector then re-arms in Descending with nothing accumulated; past WaitingTop every tick adds exactly one sample, in order; WaitingTop is never re-entered |
| `RepDetector.FeedAngleKeepsValid` | quantprocess/RepTracker.py:23-63 | one tick preserves the detector invariant, and a returned rep contains a sample at or below the bottom threshold and ends at or above the top threshold |
| `RepDetector.Feed` | quantprocess/RepTracker.py:23-26 | with a joint missing, `feed` leaves the detector unchanged and returns nothing; a returned rep is never empty |
| `RepDetector.FeedKeepsValid` | quantprocess/RepTracker.py:23-63 | `feed` preserves the detector invariant, and any rep it returns spans the band |
| `RepDetector.Run` | quantprocess/RepTracker.py:23-63 | over any sequence of ticks the config never changes, at most one rep is returned per tick, and no returned rep is empty |
| `RepDetector.RunKeepsValid` | quantprocess/RepTracker.py:23-63 | from a valid detector, any sequence of ticks ends in a valid detector, and every returned rep spans the band |
| `RepDetector.RunConservesSamples` | quantprocess/RepTracker.py:43-60 | once past WaitingTop with a previous angle seen, the returned reps concatenated, followed by the rep in progress, are exactly the samples held before followed by one sample per tick with a valid angle: nothing is lost, duplicated or reordered |
| `RepDetector.NoRepWithoutBottom` | quantprocess/RepTracker.py:38-46 | while every valid angle stays above the bottom threshold, a detector in WaitingTop or Descending returns no rep and stays in those phases |
| `RepDetector.CycleReturnsOneRep` | quantprocess/RepTracker.py:43-60 | from Descending, a bottom, a rise and a top return exactly one rep: the accumulated samples plus those three, with the detector re-armed in Descending |
| `RepDetector.BackToBackCycles` | quantprocess/RepTracker.py:53-60 | two consecutive cycles, at any six timestamps, return two reps holding exactly their own samples without passing through WaitingTop again |
| `RepDetector.ReachedBottomAppend` | quantprocess/RepTracker.py:44-46 | appending a sample keeps an existing bottom sample, and a sample at or below the bottom threshold is itself one |
| `RepSummary.MinAngle` | cv/datahandler.py:81 | the value is at most every angle of the rep and is one of them |
| `RepSummary.MaxAngle` | cv/datahandler.py:82 | the value is at least every angle of the rep and is one of them |
| `RepSummary.Summarize` | cv/datahandler.py:77-92 | `num_frames` is the sample count; min and max bound every angle and are attained; range of motion is max minus min and is non-negative; duration in seconds times 1000 is the last timestamp minus the first; a one-sample rep has zero duration and zero range |
| `RepSummary.SummaryOfEmittedRep` | cv/datahandler.py:77-92 | the summary of any rep the detector can return has min at or below the bottom threshold, max at or above the top threshold, and range of motion covering the band |
| `RepSummary.WorkoutParameters` | cv/datahandler.py:10 | only `"pushups"` is known, with thresholds 120 and 145 on the left and right elbows; any other id is the `KeyError` |
| `RepSummary.RecordTick` | cv/datahandler.py:122-129 | the detector afterwards is the fed one; a summary is returned iff the detector returned a rep, and then that rep is appended to `reps` and the summary is its `rep_summary`; otherwise `reps` is unchanged |
| `RepSummary.RunWorkout` | cv/datahandler.py:106-129 | it fails iff no detector exists yet and the stored workout id (default `"pushups"`) is unknown; otherwise a detector exists afterwards, it is created at most once, the call behaves as one recorded tick, and a valid workout state stays valid |
| `RepSummary.RunWorkoutTrace` | cv/datahandler.py:118-129 | after any run of ticks the workout holds a detector, and at most one summary was returned per tick |
| `RepSummary.SummarizeAll` | cv/datahandler.py:77-92 | one summary per rep, each counting that rep's frames |
| `RepSummary.TraceRecordsDetectorReps` | cv/datahandler.py:118-129 | repeated `run_workout` calls leave the detector as repeated `feed` calls would, and extend `reps` by exactly the reps returned, in order |
| `RepSummary.TraceUnfold` | cv/datahandler.py:118-129 | the first tick of a run of `run_workout` calls is one detector feed, after which the rest of the run continues from the fed detector with the emitted rep appended |
| `RepSummary.TraceReturnsSummaries` | cv/datahandler.py:118-129 | the non-`None` results of repeated `run_workout` calls are exactly the summaries of the returned reps, in order |
| `RepSummary.ScenarioStep` | quantprocess/RepTracker.py:23-63 | each tick of the worked pushup example moves the detector to the listed next state, and only the last tick returns the rep |
| `RepSummary.ScenarioSuffix` | quantprocess/RepTracker.py:23-63 | from any point of the worked example, the remaining ticks return the rep iff the final tick is still ahead |
| `RepSummary.ScenarioSummary` | cv/datahandler.py:77-92 | the worked example's rep summarises to min 115, max 150, duration 0.5 s, range 35, 6 frames |
| `RepSummary.PushupScenario` | cv/datahandler.py:118-129 | with elbows at 110, 125, 145, 130, 115, 120, 140, 150 (100 ms apart), no rep is returned before the last tick; the last tick returns the six samples from 145 on; its summary is as above |
| `Decimal.Ascii` | cv/cv_stream_server.py:57-58 | one byte per character of the literal, and each byte is the character's code for every character below 256 |
| `Decimal.Digits` | cv/cv_stream_server.py:58 | the rendering of a length is non-empty, all decimal digits, with no leading zero |
| `Decimal.DigitsRoundTrip` | cv/cv_stream_server.py:58 | reading the decimal rendering of `n` back gives `n` |
| `Decimal.DigitRun` | cv/cv_stream_server.py:58 | the reader's digit run is all digits and stops at the first non-digit |
| `Decimal.DigitRunStops` | cv/cv_stream_server.py:58 | a digit string followed by a non-digit is read up to exactly its end |
| `MjpegPart.Part` | cv/cv_stream_server.py:57-60 | a part opens with the `--frame` delimiter line, ends with CRLF, and carries the payload immediately before that CRLF |
| `MjpegPart.PollWrite` | cv/cv_stream_server.py:55-60 | a poll writes nothing iff the slot is `None` or empty, and otherwise one part for its content |
| `MjpegPart.StreamBody` | cv/cv_stream_server.py:54-61 | the polling loop writes nothing at all iff every poll saw `None` or an empty payload |
| `MjpegPart.ParsePart` | cv/cv_stream_server.py:57-60 | the part reader always consumes input |
| `MjpegPart.PartRoundTrip` | cv/cv_stream_server.py:57-60 | reading one part back gives its payload and leaves what follows untouched |
| `MjpegPart.StreamRoundTrip` | cv/cv_stream_server.py:53-61 | a client reading the whole stream recovers every non-empty payload the polls saw, in order, and nothing else |
| `StreamServer.Handle` | cv/cv_stream_server.py:44-69 | the stream starts iff GET targets exactly `/cv-stream`, with 200, the multipart content type naming the boundary and an open CORS origin; any other GET path gets 404; OPTIONS gets 204 with the CORS origin and methods headers; any other verb gets 501 |
| `StreamServer.SetLatest` | cv/cv_stream_server.py:78-80 | a read right after a write returns the written frame |
| `StreamServer.GetLatest` | cv/cv_stream_server.py:75-84 | a read finds nothing exactly while the slot is still in its initial `None` state |
| `StreamServer.LastWriteWins` | cv/cv_stream_server.py:75-84 | after any writes a read returns the most recent one, and with none the slot is unchanged |
| `StreamServer.Pump` | cv/cv_stream_server.py:95-101 | the published frames are the leading run of continuing steps; the run ends at a step that raised (Crashed) or one that did not continue (Stopped) |
| `StreamServer.RunCvLoop` | cv/cv_stream_server.py:87-103 | a failed init publishes nothing and closes nothing; otherwise exactly the leading continuing frames are published, in order, and the core is closed once iff the loop exited |
| `StreamServer.LoopLeavesLastFrame` | cv/cv_stream_server.py:87-103 | after the loop, a reader sees the last published frame, or the earlier content if nothing was published |
| `Whitespace.WhiteSpaceProperty` | front/src-tauri/src/lib.rs:98 | a character separates words iff its code point has the Unicode White_Space property, listed as 25 code points |
| `Whitespace.NonWhitespace` | front/src-tauri/src/lib.rs:98 | keeps only non-whitespace characters, and no more of them than the input has |
| `Whitespace.NonWhitespaceAppend` | front/src-tauri/src/lib.rs:98 | filtering distributes over concatenation |
| `Whitespace.WordLength` | front/src-tauri/src/lib.rs:98 | the leading word is whitespace-free and ends at whitespace or the end of the string |
| `Whitespace.LeadingWhitespace` | front/src-tauri/src/lib.rs:98 | the skipped prefix is all whitespace and ends at a non-whitespace character or the end |
| `Whitespace.Tokens` | front/src-tauri/src/lib.rs:98 | words are non-empty and whitespace-free; concatenated they are exactly the string's non-whitespace characters in order; there are none iff the string is all whitespace; the first is the first word |
| `Whitespace.TokensRest` | front/src-tauri/src/lib.rs:98 | the words after the first are exactly the words of the text after the first word, so no word is split or merged |
| `Whitespace.CommandLine` | front/src-tauri/src/lib.rs:98-102 | a command line yields nothing iff it is all whitespace, and otherwise its first word as the program and the remaining words as arguments |
| `TauriSession.Interpreter` | front/src-tauri/src/lib.rs:49-63 | `python3` is used when it spawns; `python` is tried only when it does not; both failing is the only failure |
| `TauriSession.Launch` | front/src-tauri/src/lib.rs:93-110 | an empty or whitespace-only command starts nothing; any other command is the spawn of its first word with the remaining words as arguments, kept exactly when that spawn succeeds |
| `TauriSession.LaunchScripts` | front/src-tauri/src/lib.rs:93-111 | every successful spawn is kept and every kept child came from one; commands that are all whitespace start nothing |
| `TauriSession.LaunchScriptsAppend` | front/src-tauri/src/lib.rs:93-111 | launching two command lists in turn keeps each list's children in order |
| `TauriSession.ScriptChildren` | front/src-tauri/src/lib.rs:88-111 | an unreadable or unparseable session config starts no scripts; otherwise every successful spawn of a listed command is kept, and every kept child came from one |
| `TauriSession.StartCvFeed` | front/src-tauri/src/lib.rs:38-116 | a recorded CV child makes the call a successful no-op; each error (root, script, spawn, stdout) occurs exactly under its condition and leaves the state unchanged; on success the spawned child is recorded and the session scripts' children are appended after the existing ones |
| `TauriSession.StartTwice` | front/src-tauri/src/lib.rs:39-45 | a second start after a successful one changes nothing, whatever the environment |
| `TauriSession.StopCvFeed` | front/src-tauri/src/lib.rs:126-137 | stop leaves the session idle, and the processes killed are exactly the CV child and every script child |
| `TauriSession.StopIsIdempotent` | front/src-tauri/src/lib.rs:126-137 | a second stop kills nothing |
| `TauriSession.StartThenStop` | front/src-tauri/src/lib.rs:38-137 | after a successful start from idle, stop kills the CV child and then the script children in launch order, and the session is idle again |
| `TauriSession.AsciiLower` | front/src-tauri/src/lib.rs:145 | only `A`..`Z` change, each to its lower-case letter |
| `TauriSession.EqIgnoreAsciiCase` | front/src-tauri/src/lib.rs:145 | two strings match iff they have equal length and each position holds the same character or the upper- and lower-case forms of one ASCII letter |
| `TauriSession.SessionFlag` | front/src-tauri/src/lib.rs:145 | the stored flag is `"on"` or `"off"`; it is `"on"` iff the input is two characters `o`/`O` then `n`/`N` |
| `TauriSession.WriteWorkoutId` | front/src-tauri/src/lib.rs:142-149 | the write succeeds iff the root resolves and the file write succeeds; the line keeps the workout id and stores `"on"` iff the session equals `"on"` ignoring ASCII case |
| `TauriSession.SessionFlagIdempotent` | front/src-tauri/src/lib.rs:145 | normalising a stored flag again does not change it |
| `RepLog.LineEnd` | front/src-tauri/src/lib.rs:166 | the first line break is found: nothing before it is a newline, and it is one unless it is the end |
| `RepLog.Lines` | front/src-tauri/src/lib.rs:166 | there are no more lines than characters |
| `RepLog.LinesHaveNoBreaks` | front/src-tauri/src/lib.rs:166 | no line holds a `'\n'` |
| `RepLog.OneLine` | front/src-tauri/src/lib.rs:166 | a line ended by `"\n"` loses one trailing `'\r'`, a line ended by `"\r\n"` is kept as it is, and a non-empty unterminated last line is kept |
| `RepLog.LinesAppend` | front/src-tauri/src/lib.rs:166 | text that ends at a line break splits independently of what is appended |
| `RepLog.LineEndPrefix` | front/src-tauri/src/lib.rs:166 | appending text after a line break does not move the first line break |
| `RepLog.LineEndAt` | front/src-tauri/src/lib.rs:166 | the first newline after a newline-free prefix is found at that position |
| `RepLog.NonEmpty` | front/src-tauri/src/lib.rs:166 | keeps exactly the non-empty lines: each kept line is non-empty and from the input, and every non-empty input line is kept |
| `RepLog.NonEmptyAppend` | front/src-tauri/src/lib.rs:166 | the empty-line filter distributes over concatenation |
| `RepLog.TimestampOf` | front/src-tauri/src/lib.rs:169-174 | a line contributes a timestamp iff it parses and has `timestamp_ms`, and then contributes that value |
| `RepLog.Timestamps` | front/src-tauri/src/lib.rs:168-175 | at most one timestamp per line, none when no line parses, and the timestamp of every line that parses and carries one is listed |
| `RepLog.TimestampsAppend` | front/src-tauri/src/lib.rs:168-175 | timestamps of concatenated lines are the concatenated timestamps, in file order |
| `RepLog.SummaryOf` | front/src-tauri/src/lib.rs:176-180 | a line has a summary iff it parses and carries `summary`, and then it is that value |
| `RepLog.Aggregate` | front/src-tauri/src/lib.rs:166-185 | the count is the number of lines truncated to `u32`; the timestamps are those of the lines in order; the last summary is the last line's, and there is none without lines |
| `RepLog.AggregateAppend` | front/src-tauri/src/lib.rs:166-185 | one more line adds one to the count, wrapping to 0 at 2^32, appends that line's timestamp if it has one, and makes its summary the last summary |
| `RepLog.GetRepCount` | front/src-tauri/src/lib.rs:153-186 | an unreadable log gives count 0, no summary and no timestamps; otherwise the count is the number of non-empty lines, parseable or not, truncated to `u32`; the timestamps are those of the non-empty lines in file order; the last summary is exactly the last non-empty line's |
| `RepLog.AppendLine` | front/src-tauri/src/lib.rs:153-186 | appending one complete non-empty line to the log adds one to the count, wrapping to 0 at 2^32, appends that line's timestamp if it has one, and makes its summary the last summary |
| `RepLog.U32Succ` | front/src-tauri/src/lib.rs:167 | adding one to a count and then truncating to `u32` is the truncated count plus one, wrapping to 0 at 2^32 |
| `RepLog.NonEmptyLinesOfAppend` | front/src-tauri/src/lib.rs:166 | appending a complete non-empty line adds exactly that line to the non-empty lines |
| `RepLog.BlankLineSkipped` | front/src-tauri/src/lib.rs:166 | appending a blank line, `"\n"` or `"\r\n"`, to a log that ends at a line break leaves the result unchanged |

## Left out

- Threads, the lock, sleeps and sockets in `cv/cv_stream_server.py`: each handler call, slot access and loop iteration is one sequential step. The 33 ms poll interval, `log_message`, `main` and argument parsing are not modelled.
- `send_error`'s error-page headers and body: `Handle` records only the status for 404 and 501.
- The body of a polling loop that never ends: `StreamBody` models any finite prefix of polls. A client disconnect ends the loop and writes nothing more.
- `produce_combined_frame`, `cv2.imencode` and `create_view_core` are foreign calls. They appear as the `CameraStep` list and the `initOk` flag. A failed encode appears as an empty payload, which the poller skips.
- `RunCvLoop`: an exception other than `RuntimeError` from `create_view_core` is not distinguished from `RuntimeError` (both end up as no loop).
- `Decimal.Ascii`: it reduces code points modulo 256. This matches the source only for ASCII text, which is all that is encoded.
- `workout_init`'s file reading. A missing or unreadable `workout_id.json` raises in the source; the model takes the stored id as a parameter (`None` when the key is absent).
- `store_reps`, `to_fixed_length`, the plotting and ML imports, and `rep_indexes` in `cv/datahandler.py`. They are file I/O or numerical code outside the rep logic.
- The `print(rep)` side effect of `run_workout`.
- Floating point: angles, means, durations and ranges are reals. Rounding in `(a + b) / 2.0` and `/ 1000.0` is not modelled.
- `start_cv_feed`'s reader thread, which emits each stdout line as a `cv-frame` event. It is I/O with no state in the session.
- Mutex poisoning in `front/src-tauri/src/lib.rs`. Every `lock()` is modelled as succeeding. This includes the script-children lock that could fail after the CV child was recorded.
- `TauriSession.StartCvFeed`: when the stdout take fails, the spawned child is dropped without being recorded. The model records that the state is unchanged; it does not model the orphaned process.
- The CV script is passed as its repository-relative path, where the source passes the canonical absolute path. The working directory and stdio redirection are not modelled.
- `RepLog.GetRepCount`: a failing `repo_root()` makes `get_rep_count` return an error. The model starts from the log's text or its absence.
- JSON parsing and serialisation (`serde_json`) are not modelled. `parse` is a parameter, and `WorkoutIdLine` stands for the serialised line.
- `TauriSession.EqIgnoreAsciiCase` compares characters. `eq_ignore_ascii_case` compares UTF-8 bytes, which agrees whenever one side is ASCII, as `"on"` is.
- Process identity: `spawn` is a function of the program and its arguments, so two identical commands in one start get the same `Child`. Only the order and membership of the children are modelled, not their distinctness.
- `greet`, `get_live_metrics`, and the Tauri builder and `run` in `front/src-tauri/src/lib.rs`. They are a demo command, file I/O, and framework wiring.
- `cv/cv_stdout_frames.py`, the `app/` and `cv-view` programs, and the pose estimation they call are not part of this model.
