# Verified model of the fswtch voice seat

This Dafny project models the parts of the repository where audio, text and control streams are cut,
framed, timed and completed, and proves what those parts keep over every input and every run.

| file | models |
|---|---|
| TtsSession, TtsFrames, TtsTheorems | the call-lifetime text-to-speech session: concurrent callers, the driver task, its command queue and its idle timer, as an interleaving of critical sections that receives the bytes the server sends |
| TtsWsCodec, CodecTheorems | the binary frame of the text-to-speech socket: writer, reader, and how far they are inverse |
| RealPipeline | the Python implementation of the same frame, compared with the Rust one |
| Vad, VadTiming | voice-activity segmentation of the caller's audio |
| Fade | playback toward the caller and the fade-out on interruption |
| StreamSplitter | when draining a buffer chunk by chunk equals splitting once |
| SseBlocks, DoubaoResponses, SpeakTheorems | server-sent events, and forwarding the spoken text of a tool call while its arguments arrive |
| Sentences, PartialText, JsonStrings, Chars | sentence splitting, and the text value of a JSON object that is still arriving |
| Esl, EslTheorems | event-socket framing of the Python brain |
| Wav, MimoTts | RIFF/WAVE encoder and decoder |
| UnicastIo | the UDP media path: datagrams, channel, staging FIFO |
| RateLimiter | the fixed-window rate limiter |
| Arithmetic, Bytes, Wrappers | products and quotients, bytes, machine integers, little- and big-endian words, UTF-8, Option and Result |

Each operation that works by changing state is a method or a class whose contract equates its result
and its whole new state with a function of the inputs and the old state. The theorems are lemmas
about those functions.

`dafny verify dfyconfig.toml` checks the project.

## What the code does differently from its comments and tests

- ai-agent-seat/src/tts_ws_codec.rs:1088 expects a ConnectionStarted message to decode after `marshal`;
  by the code it ends in `UnexpectedEof` (CodecTheorems.PayloadTakenForConnectId).
- ai-agent-seat/src/tts.rs:525-531 says late frames of a replaced turn are discarded; audio frames carry
  no turn, so they count, and are played, as the new turn's (TtsTheorems.LateFramesExactly says which).
- ai-agent-seat/src/tts.rs:705-706 re-checks before firing, but releases the lock between the check and
  the fire; a turn installed in between is completed at once (TtsTheorems.IdleFireExactly says exactly when).
- ai-agent-seat/src/tts.rs:795-798 promises that `on_turn_end` runs even if the stream dies mid-turn; a
  turn opened after that last fire and before the queue closes gets neither audio nor callback
  (TtsTheorems.ExitWindowExactly).
- `on_turn_end` (ai-agent-seat/src/tts.rs:820-823) runs after the lock is released and names no turn, so it
  can fall on a turn opened in between (TtsTheorems.CallbackExactly says exactly when).
- A delta that ends right after a backslash makes `extract_partial_json_string` slice past the end and
  panic, and what it forwards is the raw value, escapes not undone (SpeakTheorems.SpeaksRawValue, RawIsText,
  CutAtBackslashPanics).
- A network chunk that ends inside a UTF-8 character is dropped whole by ai-agent-seat/src/doubao_responses.rs:166
  (SseBlocks.ChunksMatterExactly).
- `extract_partial_text_from_json` reads the digits of an unfinished \u escape as a character, so its
  result does not always grow by extension (PartialText.GrowsByExtension says exactly when it does).
- A negative Content-Length makes the Python reader's result depend on how the bytes were chunked
  (EslTheorems.ChunksMatterExactly).

## Model

| member | source | states |
|---|---|---|
| TtsSession.Session.Interleave | ai-agent-seat/src/tts.rs:628-824 | executes any interleaving of callers, driver, timer and server, one critical section at a time, in place; the resulting state is the run of the transition system |
| TtsSession.Session.DriverStep | ai-agent-seat/src/tts.rs:671-805 | each critical section of the driver loop: arm the deadline, take the timer or command branch, re-check, push the routed chunk, leave |
| TtsSession.Session.FiringStep | ai-agent-seat/src/tts.rs:704-824 | each critical section of completing a turn and of leaving |
| TtsSession.Session.CallerStep | ai-agent-seat/src/tts.rs:513-582 | each critical section of speaking and cancelling: take the send mutex after the session was seen started, open or continue a turn, queue its request, fail, cancel, drop |
| TtsSession.Session.OpeningStep | ai-agent-seat/src/tts.rs:216-454 | each critical section of opening the session: check, take the mutex, connect, reset, queue commands, see SessionStarted, give up |
| TtsSession.Session.SwapCompleted | ai-agent-seat/src/tts.rs:813-819 | under the lock: the current task is completed at most once, and only the call that completed it owes a callback |
| TtsSession.Session.CallTurnEnd | ai-agent-seat/src/tts.rs:820-823 | after the lock: the callback is made if the session still exists, whichever task is current by then |
| TtsSession.Session.InstallTask | ai-agent-seat/src/tts.rs:525-537 | a sentence that opens a turn replaces whatever task is current, completed or not |
| TtsSession.Session.ClearCurrent | ai-agent-seat/src/tts.rs:557-563 | a request that cannot be sent takes its turn with it |
| TtsSession.Session.CancelCurrentTurn | ai-agent-seat/src/tts.rs:577-582 | marks the current task cancelled and changes nothing else |
| TtsSession.Session.IdleDeadline | ai-agent-seat/src/tts.rs:679-698 | 400 ms after the last audio, 15 s after the start without audio, none when completed or absent |
| TtsSession.Session.StillDue | ai-agent-seat/src/tts.rs:706-721 | the re-check holds exactly when the deadline that would be armed has passed |
| TtsSession.Session.TouchAudio | ai-agent-seat/src/tts.rs:910-934 | any audio frame refreshes the current task, cancelled or not, and the cancelled flag read under the same lock decides the discard |
| TtsSession.Session.ReadFrame | ai-agent-seat/src/tts.rs:839-902 | a server frame is classified for arbitrary bytes; TtsFrames says what the classes mean on the wire |
| TtsFrames.TypeMeans | ai-agent-seat/src/tts.rs:839-961 | by its bytes: a frame the codec rejects is ignored; type nibble 0xB is audio of exactly the payload, 0xF an error, and every other but 0x9 is ignored |
| TtsFrames.ResponseMeans | ai-agent-seat/src/tts.rs:846-897 | by its bytes: a response (0x9) with the event flag starts the session if and only if its event number is 150, ends it if and only if 152, 153 or 51, ends the sentence if and only if 351; all else is ignored |
| TtsFrames.AudioMeans | ai-agent-seat/src/tts.rs:898-953 | by its bytes: where the payload of an accepted audio frame starts, for every flag and event, and that it reaches to the end |
| TtsFrames.StartedMeans | ai-agent-seat/src/tts.rs:847-850 | one SessionStarted frame, byte by byte, is read as such |
| TtsSession.Session.RouteFrame | ai-agent-seat/src/tts.rs:832-965 | state after routing each kind of frame, up to the point where the driver fires or pushes |
| TtsTheorems.EveryInterleaving | ai-agent-seat/src/tts.rs:678-726 | in every interleaving no wake-up is lost: while the driver waits, an open turn has a deadline armed no later than it is due, a queued command, or a sender about to queue one; out of the loop the session is marked down |
| TtsTheorems.InvStep | ai-agent-seat/src/tts.rs:628-824 | every single event keeps the no-lost-wake-up invariant and all others |
| TtsTheorems.AccountedStep | ai-agent-seat/src/tts.rs:812-824 | every event keeps the account of turns: one opens, one ends, or nothing changes |
| TtsTheorems.NotifiedStep | ai-agent-seat/src/tts.rs:812-824 | every event keeps callbacks and completions in step |
| TtsTheorems.EndsExactlyOnce | ai-agent-seat/src/tts.rs:812-824 | over any run every installed turn but the one under way ends exactly once (completed, replaced or unsendable), and callbacks are made for exactly the completed turns, once each and in order, only the last possibly still due |
| TtsTheorems.DriverNears | ai-agent-seat/src/tts.rs:700-804 | under that preference, each driver step but one that brings audio completes a due turn or leaves fewer of the five |
| TtsTheorems.WorkDescends | ai-agent-seat/src/tts.rs:678-824 | without that preference, each critical section of the driver or the pending sender completes a due turn or strictly lowers a rank |
| TtsTheorems.WorkIsPossible | ai-agent-seat/src/tts.rs:678-726 | while a due turn is open, the driver or the sender it waits for can always take a step that respects the preference |
| TtsTheorems.DueTurnCompletes | ai-agent-seat/src/tts.rs:700-804 | a due turn completes within five driver steps, whatever callers do and however much is queued: in every run in which select! prefers its timer and no audio frame arrives (the only events excluded), it is completed, or a newer turn has replaced it |
| TtsTheorems.DueTurnCompletesUnbiased | ai-agent-seat/src/tts.rs:678-824 | the same for every schedule without that preference and again without audio frames: the number of steps then grows with the queued commands, 8 for each further sentence of the turn, 4 for each control command, 1 for each frame |
| TtsTheorems.IdleFireExactly | ai-agent-seat/src/tts.rs:704-726 | the idle branch completes the task it found due, and that task is still due, if and only if no turn was opened between the check and the fire |
| TtsTheorems.CallbackExactly | ai-agent-seat/src/tts.rs:812-824 | the callback of a completed turn falls on that turn if and only if no turn was opened between completion and callback; otherwise on a later one under way |
| TtsTheorems.OthersRun | ai-agent-seat/src/tts.rs:704-824 | while the driver stands between two critical sections the current task changes only by an install, and then to a later one under way |
| TtsTheorems.StaleTimerCompletesFreshTurn | ai-agent-seat/src/tts.rs:704-726 | a run from the start in which the timer armed for a replaced turn completes a turn installed at that very moment |
| TtsTheorems.CallbackFallsOnNextTurn | ai-agent-seat/src/tts.rs:812-824 | a run from the start in which it falls on the next turn |
| TtsTheorems.CancelSilences | ai-agent-seat/src/tts.rs:577-582 | after a cancel and until a sentence opens a turn, nothing reaches on_audio but at most the one chunk already routed |
| TtsTheorems.QuietStep | ai-agent-seat/src/tts.rs:746-769 | one event: only a cancel or a failed send mutes, nothing but a new turn unmutes, and only the chunk already routed is pushed |
| TtsTheorems.HeardInOrder | ai-agent-seat/src/tts.rs:746-769 | while the call lasts, over any run: the chunks handed to on_audio, and the one routed and about to be, are exactly those of the audio frames that found a current, uncancelled task and held a sample, in order |
| TtsTheorems.PushHeard | ai-agent-seat/src/tts.rs:757-759 | one step: the routed chunk is what on_audio gets |
| TtsTheorems.NothingMore | ai-agent-seat/src/tts.rs:757-767 | once the session object is dropped nothing more reaches on_audio |
| TtsTheorems.ServerEndsTurn | ai-agent-seat/src/tts.rs:852-961 | a sentence end, an error and the end of the session complete the turn under way at the driver's next step, whatever others do before it: the same turn if and only if none was opened in between |
| TtsTheorems.StartedExactly | ai-agent-seat/src/tts.rs:263-454 | over any run the session counts as started as the last of SessionStarted, its end or failure, the reset before opening and the driver's leaving says |
| TtsTheorems.CommandsInOrder | ai-agent-seat/src/tts.rs:727-745 | over any run the commands queued are, in order, those the driver took or left behind when it closed the queue, and those still queued |
| TtsTheorems.DriverStops | ai-agent-seat/src/tts.rs:727-805 | a received shutdown, a failed write, the end of the stream and a chunk with nobody left to hear it end the driver: at most four more steps, each of which it can take |
| TtsTheorems.MutexReleased | ai-agent-seat/src/tts.rs:513-575 | who holds the send mutex gives it up exactly by opening or failing to open, by changing its mind, by queueing its request, or by clearing the turn it could not send |
| TtsTheorems.CancelledStillTimed | ai-agent-seat/src/tts.rs:903-935 | audio for a cancelled task is discarded but still moves its deadline, so it retires |
| TtsTheorems.LateFramesExactly | ai-agent-seat/src/tts.rs:525-537 | after a turn replaces another, an audio frame, whichever turn the server made it for, is played as the new turn's if and only if it holds a sample and the new turn was neither cancelled nor failed to send; it moves the new turn's deadline |
| TtsTheorems.LateFrameCountsForNewTurn | ai-agent-seat/src/tts.rs:910-925 | a run in which a late frame of the replaced turn makes the new turn complete before its request is queued |
| TtsTheorems.ExitWindowExactly | ai-agent-seat/src/tts.rs:795-805 | when the stream dies, a turn is left without callback if and only if it was opened between the last fire and the closing of the queue; if its request was accepted it is lost |
| TtsTheorems.ExitWindowStrandsTurn | ai-agent-seat/src/tts.rs:795-805 | a run in which a turn accepted between the last fire and the end of the driver is lost |
| TtsTheorems.StrandedStays | ai-agent-seat/src/tts.rs:263-286 | such a turn stays open until a caller connects or comes back to speak |
| TtsWsCodec.Marshal | ai-agent-seat/src/tts_ws_codec.rs:533-583 | the writer: bytes and errors for every message |
| TtsWsCodec.WriteHeader | ai-agent-seat/src/tts_ws_codec.rs:534-543 | header nibbles and zero padding |
| TtsWsCodec.WriteIds | ai-agent-seat/src/tts_ws_codec.rs:547-551 | event and session id, only with the event flag |
| TtsWsCodec.WriteNumber | ai-agent-seat/src/tts_ws_codec.rs:558-577 | sequence, error code, neither, or unsupported type |
| TtsWsCodec.WritePayload | ai-agent-seat/src/tts_ws_codec.rs:610-615 | length-prefixed payload, length-checked |
| TtsWsCodec.WriteSessionId | ai-agent-seat/src/tts_ws_codec.rs:590-600 | session id left out for the writer's four connection events, length-checked otherwise |
| TtsWsCodec.Unmarshal | ai-agent-seat/src/tts_ws_codec.rs:624-709 | the reader on arbitrary bytes: the message or the exact error |
| TtsWsCodec.ReadMessage | ai-agent-seat/src/tts_ws_codec.rs:624-701 | header, then fields |
| TtsWsCodec.ReadHeader | ai-agent-seat/src/tts_ws_codec.rs:624-664 | nibbles checked in the source's order, each with its own error |
| TtsWsCodec.ReadHeaderBytes | ai-agent-seat/src/tts_ws_codec.rs:629-657 | the three meaningful bytes |
| TtsWsCodec.ReadFields | ai-agent-seat/src/tts_ws_codec.rs:672-701 | sequence or error code, then ids, then payload |
| TtsWsCodec.ReadBody | ai-agent-seat/src/tts_ws_codec.rs:693-701 | ids only with the event flag, then payload |
| TtsWsCodec.ReadBothIds | ai-agent-seat/src/tts_ws_codec.rs:711-738 | session id and connect id read by the reader's own event lists |
| TtsWsCodec.Cursor.Read | ai-agent-seat/src/tts_ws_codec.rs:406-413 | takes exactly n bytes or fails without moving |
| TtsWsCodec.Cursor.ReadU32Be | ai-agent-seat/src/tts_ws_codec.rs:420-423 | a big-endian word |
| TtsWsCodec.Cursor.ReadI32Be | ai-agent-seat/src/tts_ws_codec.rs:415-418 | a signed big-endian word |
| TtsWsCodec.Cursor.ReadU8 | ai-agent-seat/src/tts_ws_codec.rs:425-428 | a byte |
| TtsWsCodec.Cursor.ReadLenPrefixed | ai-agent-seat/src/tts_ws_codec.rs:430-437 | a length-prefixed field, or an error when it is cut short |
| TtsWsCodec.Cursor.ReadLenPrefixedString | ai-agent-seat/src/tts_ws_codec.rs:439-443 | a length-prefixed field that is not UTF-8 is an error |
| TtsWsCodec.ReadsWhatItEmits | ai-agent-seat/src/tts_ws_codec.rs:624-738 | an independently defined emission in reader order is read back, whatever follows it |
| TtsWsCodec.AcceptsOnlyEmissions | ai-agent-seat/src/tts_ws_codec.rs:624-738 | conversely every accepted byte string is such an emission |
| CodecTheorems.TrailingBytesRejected | ai-agent-seat/src/tts_ws_codec.rs:700-706 | a frame followed by x is rejected with UnexpectedTrailing of the length of x |
| CodecTheorems.ProperPrefixRejected | ai-agent-seat/src/tts_ws_codec.rs:397-443 | every proper prefix of a frame is rejected, with the exact error |
| CodecTheorems.HeaderErrors | ai-agent-seat/src/tts_ws_codec.rs:624-664 | the first of type, flag, version, header size, serialization and compression that is none of its values decides the error |
| CodecTheorems.ReadingBack | ai-agent-seat/src/tts_ws_codec.rs:533-738 | the exact outcome of unmarshal(marshal(m)) for every message but error frames with an event |
| CodecTheorems.PayloadTakenForConnectId | ai-agent-seat/src/tts_ws_codec.rs:302-309 | ConnectionStarted and ConnectionFailed never decode from the writer's own bytes: UnexpectedEof |
| CodecTheorems.ErrorFrameNecessary | ai-agent-seat/src/tts_ws_codec.rs:547-577 | an error frame with an event, written in one order and read in another, survives only with the very ids the domain names |
| CodecTheorems.MarshalRoundTrip | ai-agent-seat/src/tts_ws_codec.rs:533-738 | unmarshal(marshal(m)) == m if and only if the message is in an explicit domain, error frames with events included |
| CodecTheorems.UnmarshalRoundTrip | ai-agent-seat/src/tts_ws_codec.rs:533-738 | an accepted frame re-marshals to the same bytes if and only if its padding is zero, its event known and its message in that domain |
| RealPipeline.ParseFrame | brain/real_pipeline.py:300-323 | the second reader as it runs, its lenient slices and struct errors included |
| RealPipeline.ParseEvent | brain/real_pipeline.py:312-319 | event, then ids and payload |
| RealPipeline.ParseIds | brain/real_pipeline.py:314-319 | session and connect id by the reader's lists |
| RealPipeline.ParsePayload | brain/real_pipeline.py:320-321 | the payload slice |
| RealPipeline.Prefixed | brain/real_pipeline.py:315-316 | a length and the slice it announces, which may fall short |
| RealPipeline.Word | brain/real_pipeline.py:309 | four bytes or a struct error |
| RealPipeline.ParsersAgree | brain/real_pipeline.py:300-323 | on every four-byte-header frame the Rust reader accepts, Python yields the same fields, the event up to unknown numbers, and ignores trailing bytes |
| RealPipeline.TruncatedFrame | brain/real_pipeline.py:300-323 | cutting bytes off the payload: Rust rejects, Python silently returns the shorter payload |
| RealPipeline.MarshalControl | brain/real_pipeline.py:288-297 | the control frame, or the struct error for over-long fields |
| RealPipeline.WritersAgree | brain/real_pipeline.py:288-297 | both writers fail on the same control messages and otherwise produce the same bytes |
| RealPipeline.ControlFrameReadBack | brain/real_pipeline.py:288-297 | the Rust reader reads Python's control frame back, with the exact outcome for every event |
| Vad.CallState.WriteFrame | ai-agent-seat/src/io.rs:363-568 | one media frame: buffers, staged detector frames, mode and segments handed out |
| Vad.CallState.Accumulate | ai-agent-seat/src/io.rs:414-434 | audio goes to the segment or to a pre-roll trimmed to 2400 samples |
| Vad.CallState.TrimPreRoll | ai-agent-seat/src/io.rs:427-433 | the pre-roll keeps its last 2400 samples |
| Vad.CallState.ScoreOne | ai-agent-seat/src/io.rs:461-565 | one detector frame: score, tick, turn |
| Vad.CallState.Score | ai-agent-seat/src/io.rs:67-86 | the energy gate comes first: only frames that pass it reach the detector |
| Vad.CallState.Decide | ai-agent-seat/src/io.rs:482-565 | onset, silence counting, end of segment |
| Vad.SegmentsAreWindows | ai-agent-seat/src/io.rs:414-565 | every segment of a call is a contiguous window of the caller's stream; windows are non-empty, disjoint, in order, and start exactly at max(previous end, onset - 2400); the buffer of the inactive mode is empty |
| Vad.TurnHolds | ai-agent-seat/src/io.rs:512-565 | onset and end move exactly the right stretch of the stream |
| Vad.HearHolds | ai-agent-seat/src/io.rs:414-434 | arriving audio keeps both buffers aligned with the stream |
| Vad.StageBelowFrame | ai-agent-seat/src/io.rs:460-468 | fewer than 256 staged samples are left after every frame |
| Vad.SilenceSamples | ai-agent-seat/src/io.rs:208 | the timeout in samples with its 32-bit wrap, hence small enough for the counter |
| Vad.FlatFrameLoud | ai-agent-seat/src/io.rs:60-79 | a frame of constant amplitude, whatever the signs, passes the energy gate if and only if that amplitude over full scale is at least the minimum |
| VadTiming.RunTicks | ai-agent-seat/src/io.rs:460-565 | the signals of a call are those of its sequence of voiced and unvoiced frames, so the timing laws hold of calls |
| VadTiming.VoicesOfCall | ai-agent-seat/src/io.rs:440-484 | the voiced frames of a call are those of all that the resampler made of it, cut every 256 samples regardless of the media frames |
| VadTiming.VoicedExactly | ai-agent-seat/src/io.rs:67-86 | a detector frame is voiced if and only if it passes the gate and the detector, fed exactly the frames up to it that do, scores at least the threshold |
| VadTiming.AlwaysBelow | ai-agent-seat/src/io.rs:482-491 | outside speech the accumulator is always below the onset |
| VadTiming.OnsetExactly | ai-agent-seat/src/io.rs:482-512 | since the call began or a segment ended the accumulator is the sum over the voiced frames of 16 * (1 - decay)^(unvoiced frames after it), for every decay, and an onset fires exactly at the first frame where that sum reaches the onset |
| VadTiming.DecaysBy | ai-agent-seat/src/io.rs:484-488 | n unvoiced frames multiply what has accumulated by (1 - decay)^n |
| VadTiming.OnlyRunCounts | ai-agent-seat/src/io.rs:484-488 | with full decay the accumulator is 16 per voiced frame of the run at the end: onset/16 of them in a row are needed |
| VadTiming.Lasting | ai-agent-seat/src/io.rs:528-536 | while a segment lasts the silence counter is 256 per trailing unvoiced frame |
| VadTiming.OnsetNeedsVoice | ai-agent-seat/src/io.rs:482-512 | an onset fires only on a voiced frame and only after at least onset_ms/16 voiced frames since the last segment ended |
| VadTiming.EnoughVoice | ai-agent-seat/src/io.rs:482-512 | that many voiced frames in a row always fire one |
| VadTiming.EndsExactly | ai-agent-seat/src/io.rs:532-536 | a segment ends exactly at the frame that completes the first run of k unvoiced frames |
| VadTiming.LeastFrames | ai-agent-seat/src/io.rs:532-536 | k is the least positive number with 256k at least the silence timeout |
| Fade.CallState.ReadFrame | ai-agent-seat/src/io.rs:602-641 | drains the ring into the frame and applies the fade in place |
| Fade.CallState.ApplyFade | ai-agent-seat/src/io.rs:611-628 | gain on the samples the fade covers, zero on the rest |
| Fade.CallState.Pop | ai-agent-seat/src/io.rs:602-608 | as many samples as there are, then silence |
| Fade.Scale | ai-agent-seat/src/io.rs:618-621 | truncation toward zero never makes a sample louder |
| Fade.CallState.ClearTts | ai-agent-seat/src/io.rs:244-255 | starts the fade over, or clears at once when no fade is configured |
| Fade.FadeOut | ai-agent-seat/src/io.rs:602-641 | from clear_tts on, whatever the frame sizes, pushes and underruns: for k below the total the k-th popped sample x is heard as y of the same sign with 0 <= |x| * (total - k) - |y| * total < total, the rest of the completing frame is zero, completing empties the ring, and until then nothing that found room in it is lost |
| Fade.ScaleMeans | ai-agent-seat/src/io.rs:618-621 | the gain is the quotient truncated toward zero, said by multiplication |
| Fade.HardCut | ai-agent-seat/src/io.rs:244-255 | where no fade is configured nothing pushed before the interruption is heard after it |
| Fade.NothingDropped | ai-agent-seat/src/actor.rs:374-390 | a push that fits the 160000-sample ring loses nothing |
| Fade.PushKeepsFront | ai-agent-seat/src/actor.rs:374-390 | one that does not fit loses its last samples, and only then |
| Fade.FadingRun | ai-agent-seat/src/io.rs:602-641 | the same from any point of a fade |
| Fade.FrameSizesIrrelevant | ai-agent-seat/src/io.rs:602-641 | two ways of reading the same audio through a fade agree as far as both go |
| Fade.PlainPlayback | ai-agent-seat/src/io.rs:602-608 | without a fade the caller hears the audio as pushed, as far as it found room in the ring |
| Fade.Faded | ai-agent-seat/src/io.rs:611-628 | no sample gets louder; the first keeps its value; past the total all is silence |
| StreamSplitter.FeedIsDrain | ai-agent-seat/src/doubao_responses.rs:166-174 | chunked draining equals batch draining for any cut that is stable under extension |
| StreamSplitter.DrainInTwo | ai-agent-seat/src/doubao_responses.rs:166-174 | draining now and later is draining once, if what is drained now is stable |
| StreamSplitter.FeedConserves | ai-agent-seat/src/orchestrator.rs:184-190 | nothing is lost or reordered, stable or not |
| StreamSplitter.FindStable | ai-agent-seat/src/doubao_responses.rs:171 | the first occurrence of a pattern stays where it is |
| SseBlocks.Reader.Receive | ai-agent-seat/src/doubao_responses.rs:165-174 | one chunk: decode or drop, append, strip carriage returns, cut blocks |
| SseBlocks.Reader.DrainBlocks | ai-agent-seat/src/doubao_responses.rs:171-173 | blocks without their blank line, in order |
| SseBlocks.ChunksMatterExactly | ai-agent-seat/src/doubao_responses.rs:165-174 | blocks and leftover are those of the whole response if and only if every chunk is UTF-8 by itself |
| SseBlocks.CutInsideCharacter | ai-agent-seat/src/doubao_responses.rs:166 | a concrete well-formed response lost to a cut inside its only character |
| SseBlocks.BlocksReadBack | ai-agent-seat/src/doubao_responses.rs:165-174 | blocks written with CR LF or LF line ends, in any chunks that are UTF-8 by themselves, come out as they were, and what follows the last blank line is kept |
| DoubaoResponses.ExtractPartialJsonString | ai-agent-seat/src/doubao_responses.rs:329-360 | the scan with its byte offsets, slices that panic included |
| DoubaoResponses.ReadAfterKey | ai-agent-seat/src/doubao_responses.rs:332-359 | colon, white space, quote, value |
| DoubaoResponses.ReadValue | ai-agent-seat/src/doubao_responses.rs:341-359 | the scanning loop, by characters and byte offsets |
| DoubaoResponses.ExtractedGrows | ai-agent-seat/src/doubao_responses.rs:329-360 | more input never changes or loses a value once read: an extension of it, or a panic |
| DoubaoResponses.ResponseStream.OnEvent | ai-agent-seat/src/doubao_responses.rs:203-301 | every stream event: reply, tool calls, pending call, forwarded length, or panic |
| DoubaoResponses.ResponseStream.OnArgsDelta | ai-agent-seat/src/doubao_responses.rs:239-265 | one argument delta: append, extract, forward the new suffix |
| DoubaoResponses.ArgsStep | ai-agent-seat/src/doubao_responses.rs:239-265 | one argument delta forwards exactly what has become known |
| DoubaoResponses.ReplyIsWhatWasSpoken | ai-agent-seat/src/doubao_responses.rs:203-265 | the returned reply is the concatenation of what was handed to the synthesizer |
| DoubaoResponses.ReturnsCallsAndReply | ai-agent-seat/src/doubao_responses.rs:203-301 | for every sequence of events that does not panic: the calls returned are the finished calls in order, each with its own arguments or, failing these, the deltas since its item began; the reply is, event by event, the text deltas and what each delta of a speak call newly determines |
| DoubaoResponses.PanicsExactly | ai-agent-seat/src/doubao_responses.rs:203-301 | for every sequence of events: a panic exactly when some delta of a speak call leaves the arguments collected for it torn |
| DoubaoResponses.TornByEscapedCharacter | ai-agent-seat/src/doubao_responses.rs:341-359 | a value that breaks off after an escaped character panics if and only if that is not ASCII |
| DoubaoResponses.ForwardsWholeCall | ai-agent-seat/src/doubao_responses.rs:218-265 | for any deltas of a speak call: a panic exactly when some cumulative prefix is torn, otherwise the forwarded pieces are the extraction from the whole arguments |
| DoubaoResponses.ForwardsFrom | ai-agent-seat/src/doubao_responses.rs:239-265 | the same from any state in which everything known has been forwarded |
| SpeakTheorems.SpeaksRawValue | ai-agent-seat/src/doubao_responses.rs:239-265 | for well-formed JSON arguments in any deltas: a panic exactly when a delta ends right after the backslash of an escape in the text; otherwise exactly the raw value is forwarded |
| SpeakTheorems.CutAtBackslashPanics | ai-agent-seat/src/doubao_responses.rs:329-360 | two deltas of well-formed arguments, cut after a backslash, that make the handler panic |
| SpeakTheorems.TornExactly | ai-agent-seat/src/doubao_responses.rs:341-359 | which prefixes of the arguments make the scan panic |
| SpeakTheorems.RawUnits | ai-agent-seat/src/doubao_responses.rs:341-359 | the scan reads any JSON encoding unit by unit |
| SpeakTheorems.RawIsText | ai-agent-seat/src/doubao_responses.rs:341-359 | the raw value is the text meant exactly when it has no escape |
| PartialText.ExtractPartialText | ai-agent-seat/src/orchestrator.rs:777-859 | the scan and unescaping loop |
| PartialText.FindOpeningQuote | ai-agent-seat/src/orchestrator.rs:784-811 | white space, colon, white space, quote, or nothing |
| PartialText.ReadValue | ai-agent-seat/src/orchestrator.rs:817-859 | the unescaping loop |
| PartialText.UnescapesMeaning | ai-agent-seat/src/orchestrator.rs:817-859 | whatever units an encoder chose for a text, the reader makes the text of them, whatever follows; units and characters are related by code point, not by the reader's tables |
| PartialText.UndoesEscaping | ai-agent-seat/src/orchestrator.rs:819-859 | undoes every JSON encoding of every text (no surrogate pairs) under the first "text" key, by that relation |
| PartialText.EncodedReadBack | ai-agent-seat/src/orchestrator.rs:777-859 | every text, encoded with its quotes, backslashes and control characters escaped as section 7 of RFC 8259 demands, comes back |
| JsonStrings.TextMeans | ai-agent-seat/src/orchestrator.rs:821-852 | the text units stand for, as used below, is the one that relation gives: eight escapes by code point, four hexadecimal digits of either case, everything else itself |
| JsonStrings.EveryTextEncodes | ai-agent-seat/src/orchestrator.rs:819-859 | every text has an encoding without control characters, so the statements above cover all texts |
| PartialText.GrowsByExtension | ai-agent-seat/src/orchestrator.rs:819-859 | what has been extracted at a cut is a prefix of the text exactly when the cut is not inside the digits of a non-zero \u escape |
| PartialText.CutInsideDigits | ai-agent-seat/src/orchestrator.rs:830-843 | one cut inside the digits of a \u escape, read as another character |
| PartialText.PartialIsPrefix | ai-agent-seat/src/orchestrator.rs:836-852 | what is made of part of one escape |
| PartialText.LaterExtends | ai-agent-seat/src/orchestrator.rs:819-859 | of two such cuts the later extraction extends the earlier |
| Sentences.FindSentenceBoundary | ai-agent-seat/src/orchestrator.rs:454-479 | the first boundary, terminators at the end of the text included |
| Sentences.EndOfSentence | ai-agent-seat/src/orchestrator.rs:460-476 | whether a sentence ends at one position |
| Sentences.FirstEnd | ai-agent-seat/src/orchestrator.rs:454-479 | the first position where a sentence ends decides |
| Sentences.FirstBoundary | ai-agent-seat/src/orchestrator.rs:454-479 | by code point: right after the first 3002, FF01, FF1F or 0A hex, or '.', '!', '?' at the end or before a blank, line feed, tab or carriage return, which it takes along; none otherwise |
| Sentences.BoundaryStable | ai-agent-seat/src/orchestrator.rs:454-479 | only a terminator at the very end gives a boundary that more text can undo |
| Sentences.NoCutInside | ai-agent-seat/src/orchestrator.rs:454-479 | no sentence of a whole text ends right after an ASCII terminator that has a successor |
| Sentences.Splitter.OnTextDelta | ai-agent-seat/src/orchestrator.rs:184-211 | append, drain, and speak the sentences that are not blank, up to where the turn is found cancelled |
| Sentences.Splitter.TakeSentence | ai-agent-seat/src/orchestrator.rs:187-188 | one sentence off the front of the buffer |
| Sentences.CutsMatterExactly | ai-agent-seat/src/orchestrator.rs:184-211 | the sentence list is independent of the deltas if and only if no delta ending in an ASCII terminator is followed by more text |
| Sentences.SplitterConserves | ai-agent-seat/src/orchestrator.rs:184-211 | sentences and leftover are the text, and the leftover holds no boundary |
| Esl.Session.ReadLine | brain/esl.py:33-44 | the line, and exactly the unconsumed bytes left in the buffer |
| Esl.Session.ReceiveChunk | brain/esl.py:35-39 | one chunk appended, or the peer has closed |
| Esl.Session.ReadFrame | brain/esl.py:153-167 | the part both readers share |
| Esl.Session.ParseEvent | brain/esl.py:174-187 | header part, lines and body of an event |
| Esl.EventLines | brain/esl.py:197-207 | the lines an event is written as |
| Esl.Session.ReadHeaders | brain/esl.py:47-57 | the header block |
| Esl.Session.ReadBody | brain/esl.py:119-128 | a body of the announced length, negative lengths slicing from the end as Python does |
| Esl.Session.SendCmd | brain/esl.py:105-130 | command bytes, reply headers and drained body |
| Esl.Session.RecvEvent | brain/esl.py:147-187 | event headers and body |
| Esl.Session.SendEvent | brain/esl.py:189-208 | bytes of the event, then its reply |
| EslTheorems.ChunksMatterExactly | brain/esl.py:105-187 | a read over any chunking returns and leaves what the pure parser does on the whole stream, if and only if a negative Content-Length does not reach back into what follows the headers |
| EslTheorems.NegativeLengthDepends | brain/esl.py:118-129 | one frame with a Content-Length of -1, read differently in two chunkings |
| EslTheorems.ReadsIndependent | brain/esl.py:33-187 | any sequence of reads over any chunking, failures included, stays in step with the pure parser |
| EslTheorems.LineIndependent | brain/esl.py:33-44 | a line, and what is left, whatever the chunks |
| EslTheorems.HeadersIndependent | brain/esl.py:47-57 | a header block likewise |
| EslTheorems.BodyIndependent | brain/esl.py:119-128 | a body likewise, for lengths that do not reach back |
| EslTheorems.BlockAlone | brain/esl.py:47-57 | a header block does not depend on what follows it |
| EslTheorems.EventReadBack | brain/esl.py:189-208 | what send_event writes is read back as the same headers and body in any chunks, and what follows is untouched |
| EslTheorems.EventTakenApart | brain/esl.py:166-187 | a serialised event is taken apart into its headers and a body that may itself hold blank lines |
| EslTheorems.BareEventTakenApart | brain/esl.py:166-187 | and one without a body into its headers |
| EslTheorems.EventReceived | brain/esl.py:147-187 | a frame whose body is a serialised event makes recv_event return that event, over any chunks, and leave what follows |
| EslTheorems.ReplyReceived | brain/esl.py:105-130 | a reply with a body makes send_cmd return its headers with the stripped body as one more, over any chunks, and leave what follows |
| EslTheorems.BareReplyReceived | brain/esl.py:105-130 | a reply without a body makes it return the headers |
| EslTheorems.DecimalSpells | brain/esl.py:197-207 | the Content-Length written spells the length in decimal digits |
| Wav.EncodeWav | ai-agent-seat/src/orchestrator.rs:713-734 | the RIFF bytes with their 32-bit size fields |
| Wav.WriteFmt | ai-agent-seat/src/orchestrator.rs:717-725 | the format chunk |
| MimoTts.DecodeWavToPcm | ai-agent-seat/src/mimo_tts.rs:284-387 | arbitrary bytes: samples and rate, or the exact error |
| MimoTts.ReadRiff | ai-agent-seat/src/mimo_tts.rs:285-299 | the RIFF header and its rejections |
| MimoTts.ReadChunks | ai-agent-seat/src/mimo_tts.rs:307-379 | the chunk loop |
| MimoTts.ReadChunk | ai-agent-seat/src/mimo_tts.rs:315-378 | one chunk of each kind |
| MimoTts.ReadFmt | ai-agent-seat/src/mimo_tts.rs:316-340 | the format chunk and its rejections |
| MimoTts.DownmixInPairs | ai-agent-seat/src/mimo_tts.rs:350-358 | stereo pairs averaged toward zero |
| MimoTts.Cursor.Skip | ai-agent-seat/src/mimo_tts.rs:366-377 | a skip in 4096-byte steps takes exactly the chunk |
| MimoTts.Cursor.ReadExact | ai-agent-seat/src/mimo_tts.rs:389-398 | takes exactly n bytes or fails |
| MimoTts.Cursor.ReadLeU16 | ai-agent-seat/src/mimo_tts.rs:400-404 | a 16-bit little-endian word |
| MimoTts.Cursor.ReadLeU32 | ai-agent-seat/src/mimo_tts.rs:406-410 | a 32-bit little-endian word |
| Wav.WavRoundTrip | ai-agent-seat/src/mimo_tts.rs:284-387 | decode(encode(audio, rate)) returns both if and only if the rate is positive and the data size fits its field |
| Wav.ChannelsRead | ai-agent-seat/src/mimo_tts.rs:341-365 | a file of two channels decodes to the means of its pairs truncated toward zero, said by multiplication, one of fewer to its samples, whatever byte rate, alignment and file size its header names |
| Wav.OneSampleFile | ai-agent-seat/src/orchestrator.rs:713-734 | a file of one sample, byte by byte |
| Wav.UnknownChunkIgnored | ai-agent-seat/src/mimo_tts.rs:366-377 | inserting any unknown unpadded chunk between chunks changes nothing |
| Wav.InsertChunk | ai-agent-seat/src/mimo_tts.rs:307-378 | the same for the chunk loop from any point |
| Wav.DecodedFits | ai-agent-seat/src/mimo_tts.rs:341-345 | no file decodes to more samples than a 32-bit size allows |
| UnicastIo.CallState.StageAndFill | fswtch-unicast/src/io.rs:213-231 | drain, cap oldest-first, fill in place, pad with silence |
| UnicastIo.CallState.Drain | fswtch-unicast/src/io.rs:214-217 | the channel moves into staging in order |
| UnicastIo.CallState.DropOldest | fswtch-unicast/src/io.rs:218-222 | exactly the oldest samples above the cap go |
| UnicastIo.CallState.Fill | fswtch-unicast/src/io.rs:224-230 | the front of staging, then silence |
| UnicastIo.CallState.TryEnqueue | fswtch-unicast/src/io.rs:235-246 | a full channel drops the frame |
| UnicastIo.Conservation | fswtch-unicast/src/io.rs:213-246 | over every interleaving: samples delivered or dropped, then staging, then channel, are the received stream in order |
| UnicastIo.ReadExact | fswtch-unicast/src/io.rs:213-231 | drops only above 81920 staged samples, only the oldest, only down to the cap; silence only on underrun |
| UnicastIo.LosslessWhileKeepingUp | fswtch-unicast/src/io.rs:213-231 | while no read finds more than the cap, the caller hears the received stream itself |
| UnicastIo.FramesCarryHeard | fswtch-unicast/src/io.rs:213-231 | the frames carry exactly those samples |
| UnicastIo.PeerFramesArrive | fswtch-unicast/src/io.rs:136-160 | whatever strangers send, the peer's frames that fit the buffer arrive as written |
| Bytes.WriteI16Le | fswtch-unicast/src/io.rs:192-198 | the little-endian encoder |
| Bytes.PcmRoundTrip | fswtch-unicast/src/io.rs:192-209 | decoding undoes encoding |
| Bytes.LeRoundTrip | fswtch-unicast/src/io.rs:192-209 | encoding undoes decoding up to an odd last byte |
| Bytes.LittleEndianSample | fswtch-unicast/src/io.rs:192-198 | a sample is written low byte first, in two's complement |
| Bytes.SampleAt | fswtch-unicast/src/io.rs:192-198 | sample i stands at bytes 2i and 2i + 1 |
| Bytes.BigEndian | ai-agent-seat/src/tts_ws_codec.rs:585-608 | a word of the frame is written high byte first |
| Bytes.LittleEndian | ai-agent-seat/src/orchestrator.rs:713-734 | a word of the file is written low byte first |
| RateLimiter.Limiters.Allow | crates/fswtch/examples/mod_rate_limiter.rs:60-83 | one request: refusal at the key cap, replenishing, taking one |
| RateLimiter.Limiters.Reset | crates/fswtch/examples/mod_rate_limiter.rs:102-113 | forgets every key |
| RateLimiter.AtMostTwiceLessOne | crates/fswtch/examples/mod_rate_limiter.rs:60-83 | when clock readings never decrease in serving order, no half-open interval of the window's length holds more than 2L-1 allowed requests for a key (0 if L is 0) |
| RateLimiter.AtMostPerWindow | crates/fswtch/examples/mod_rate_limiter.rs:60-83 | the clock is read before the lock is taken, so readings can be served late: if none is more than a skew s behind an earlier served one, the bound is L times (2W+s-2)/W+1 |
| RateLimiter.BoundAttained | crates/fswtch/examples/mod_rate_limiter.rs:60-83 | and 2L-1 is attained |
| RateLimiter.BoundedKeys | crates/fswtch/examples/mod_rate_limiter.rs:64-67 | at most 10000 keys ever exist |
| RateLimiter.FreshAllowed | crates/fswtch/examples/mod_rate_limiter.rs:60-83 | a new key below 10000 keys, and a key whose window has passed, is allowed its whole limit |
| RateLimiter.WindowAllows | crates/fswtch/examples/mod_rate_limiter.rs:60-83 | within its window a key is allowed exactly as many requests as remain |
| RateLimiter.OtherKeysMatterExactly | crates/fswtch/examples/mod_rate_limiter.rs:60-83 | a key gets the replies it would get if no other key existed, if and only if none of its requests meets the cap on keys |

## Left out

- FreeSWITCH wrappers, build scripts and the audio-processing crates: calls into code that is not shown.
- Sockets, TLS, HTTP and the async runtime: only queues, locks, timers and the order of critical sections
  are modelled; time is a counter of milliseconds that any step may let pass.
- A second driver spawned while one whose `start_connection` failed is still shutting down
  (ai-agent-seat/src/tts.rs:396-411): the model connects only when no driver is running.
- The 20 s limit on waiting for SessionStarted: a caller may give up at any time.
- TtsSession.Session.OpeningStep: `started_flag`, which only spares a later `start` the check, is not modelled.
- TtsSession.Session.DriverStep: takes any enabled branch of `select!`. The safety theorems therefore cover
  more schedules than the code has; where the code's preference for its timer makes a stronger statement
  true, it is a hypothesis (TtsTheorems.Biased), and an armed timer counts as ready at its exact deadline.
- The resampler of the text-to-speech path: both rates are 8 kHz, so none is created.
- The voice detector and the 8-to-16 kHz resampler: arbitrary functions of everything they were fed.
- Vad.CallState.Score: scores, thresholds and energies are exact reals, not rounded 32-bit floats; the
  root-mean-square gate is compared squared.
- Fade.CallState.ApplyFade: the gain is an exact ratio, so a rounding of the 32-bit product below a whole
  sample value is not captured.
- Vad.CallState.Decide: the barge-in notice sent when a turn is pending, and the barge-in counter, which is
  only ever reset.
- Vad.CallState.WriteFrame: a segment is recorded as handed out even if the channel to the actor is full.
- SSE lines, JSON parsing and first-token timing in ai-agent-seat/src/doubao_responses.rs:175-202: events
  arrive parsed.
- Two tool calls whose argument deltas are interleaved share one pending slot, in the code and here; the
  theorems about JSON arguments speak of one call from its start to the next item event.
- Sentences.Splitter.OnTextDelta: the spawning of synthesis, and the flags set around it.
- Fade.Faded: that the first sample keeps its value holds of the exact ratio; a rounded 32-bit product may
  come out one smaller in magnitude.
- Positions in Sentences and PartialText count characters where the code counts bytes; all cuts fall
  between characters.
- Esl: decoding with replacement, `int`, `strip` and URL unquoting are the identity or arbitrary functions,
  so keys that differ only in malformed bytes stay distinct here; where bodies are read back, `int` is taken
  to read ASCII digits as the number they spell.
- Esl.Session.SendEvent: values are given as bytes; string formatting of other types is not modelled.
- Wav.EncodeWav: size and byte-rate fields wrap as in a release build; a debug build panics instead.
- RealPipeline.ParseFrame: identifiers are compared as bytes, without decoding.
- RateLimiter.Limiters.Allow: command parsing and reply texts; time is an integer clock reading.
- RateLimiter.AtMostTwiceLessOne: assumes readings in serving order; AtMostPerWindow bounds late ones.
- UnicastIo: socket errors, back-off, and the reaper of orphaned calls.
- Prompts, tool definitions, configuration, history trimming, provider factories, logging and metrics are not
  modelled.
