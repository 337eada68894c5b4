# Open Speech: a verified model

This project models the parts of the speech server that carry state across arbitrary chunks,
interleavings and edits, and proves properties of them over all inputs and all runs. There is one
module for each component:

- `FenceFilter`, `SentenceRules`, `SegmentBoundaries`, `LiveTextSegmenter`: the incremental text
  segmenter of the Live Reader. It filters code fences out of a stream of deltas, keeps source
  positions, and cuts the rest into speakable segments. It is compared with a one-pass filter of the
  whole text.
- `SplitSentences`, `SplitLong`, `QwenSplit`, `ReaderPages`: loops that split text and pages, with
  conservation, order and size bounds, including rounded slices and token budgets.
- `EdgeTrimmer`, `InputAudioBuffer`, `StreamingSession`: audio machines whose results must not depend
  on how the audio was cut into chunks. The voice detector is an uninterpreted verdict on the windows
  it has heard.
- `ReaderPlanner`: the window of rendered parts a listener needs next, while one worker fills it in
  and a cache is pruned.
- `LiveSession` (with `LiveTrace` and `LiveOutput`), `RealtimeSession`: the two WebSocket sessions as
  state machines. Each stretch of code without an await is one step, steps happen in any order, and every
  send is appended to a trace.
- `NamedVoices`: presets that keep a copy of a named voice, through every edit and migration.
- `RateLimiter`, `VoiceLibrary`, `Backchannel`: a bound over whole runs, a transaction with a fault at
  any step, and a table-filling loop against an existential specification.

`Text` holds the character scanning they share. Objects that the source mutates are classes whose
methods are proved against functions of their history; what the source promises is proved about those
functions, or holds in every state a class can be in.

## What turned out different

- A realtime audio delta can start while a barge-in is pending. The response task waits for the
  playback gate with `asyncio.Event.wait`, which does not look at the event again once it was woken. If
  the gate opens and closes again before the task has its turn, one slice goes out.
  `RealtimeSession.DeltaInBargeIn` is such a run. `RealtimeSession.RealtimeSession.Slice` states exactly
  when it happens, and `RealtimeSession.Run` that it happens at most once in a barge-in.
- The check for a cancelled response before a delta and after the synthesis never finds one, because a
  cancellation always reaches the task as an exception first. The methods assert it.
- With cleanups, the rate limiter's bound holds for every run only if the burst is at most what the rate
  brings in an hour. `RateLimiter.BoundedExactly` and `RateLimiter.CleanupHarmlessExactly` state both
  directions; the run that breaks it is `RateLimiter.TwoBursts`.
- The windowed sentence split equals the unwindowed one exactly when every cut fits the window
  (`SplitSentences.WindowedSplitIsExact`). It does for every text without more than 64 combining characters
  in a row (`SplitSentences.ShortClustersSplitAlike`); `SplitSentences.StackedSplitsDiffer` is a text for
  which the two splits differ.
- A forced flush whose text ends right after an opening fence leaves the fence open, so the text after it
  is filtered as code. `FenceFilter.FenceStaysOpenExactly` states when this happens,
  `FenceFilter.OpenFenceSwallows` what it does to the text after it, and `FenceFilter.FenceLeftOpen` is an input.
- A wait for playback can time out although playback could go on again in the same turn of the event loop.
  `LiveSession.LiveTTSSession.TimeOutFlow` allows it.

## Model

| member | source | states |
|---|---|---|
| `FenceFilter.FenceStaysOpenExactly` | src/live_tts/segmenter.py:154-190 | a forced flush leaves a fence open exactly when the text since the last one ends with the three backticks that opened it, or is empty inside a fence left open before; the number of fences and the end of the last one decide it |
| `FenceFilter.OpenFenceSwallows` | src/live_tts/segmenter.py:154-167 | a text without a fence, flushed while a fence was left open, adds nothing to what is spoken |
| `FenceFilter.FenceLeftOpen` | src/live_tts/segmenter.py:166-167 | the input that shows it: three backticks, a forced flush, "hi", a forced flush; the second text is not spoken |
| `FenceFilter.ScanIsOrdered` | src/live_tts/segmenter.py:154-190 | the source ranges of the filtered characters are in order and inside the text; two of them overlap only if the source has an opening fence of three backticks there, and both are that fence |
| `FenceFilter.FilterIsOrdered` | src/live_tts/segmenter.py:127-135 | the same across any number of forced flushes |
| `FenceFilter.SpokenIsText` | src/live_tts/segmenter.py:150-152 | the cue is spoken character by character, each with the range of the opening fence |
| `LiveTextSegmenter.Segmenter.Append` | src/live_tts/segmenter.py:117-125 | appending extends the pending text; new fragments are cut off the front of the buffer, each at the boundary of what was in it then, and no boundary is left in the buffer afterwards; scanned characters stay equal to the filter of the text read so far |
| `LiveTextSegmenter.Segmenter.Flush` | src/live_tts/segmenter.py:127-135 | an idle flush cuts at boundaries, or without one at the idle boundary, and leaves neither in the buffer; a forced flush empties the buffer, what was spoken is exactly the filter of everything appended, and a fence is open afterwards exactly when it is in that filter |
| `LiveTextSegmenter.Segmenter.ConsumeRaw` | src/live_tts/segmenter.py:137-142 | takes a prefix of the raw text with its absolute start; positions stay exact |
| `LiveTextSegmenter.Segmenter.ProcessRaw` | src/live_tts/segmenter.py:154-190 | the fence loop agrees with the one-pass filter wherever the deltas were cut, fences split across deltas included, and terminates |
| `LiveTextSegmenter.Segmenter.PopReady` | src/live_tts/segmenter.py:192-206 | the cutting loop terminates; each fragment is as long as the next boundary of what was left, only without one as the idle boundary or, forced, as all of it; it stops only when there is no such cut |
| `LiveTextSegmenter.Segmenter.TakeSegment` | src/live_tts/segmenter.py:201-205 | a cut piece is spoken unless it has neither text nor content, and the rest of the cutting stands |
| `LiveTextSegmenter.FragmentIsSpoken` | src/live_tts/segmenter.py:201-205 | every fragment with a character that is no whitespace has its segment, in its place |
| `LiveTextSegmenter.AllCutMore` | src/live_tts/segmenter.py:192-206 | over any sequence of calls, every fragment was cut at a boundary of what had arrived of the text after it |
| `LiveTextSegmenter.Segmenter.ConsumeSegment` | src/live_tts/segmenter.py:378-389 | a segment consumes exactly the first `boundary` characters and carries their source range |
| `LiveTextSegmenter.Segmenter.AllSpoken` | src/live_tts/segmenter.py:127-135 | with nothing pending and an empty buffer, the consumed fragments are the filtered text |
| `LiveTextSegmenter.Segmenter.SourceRangesInOrder` | src/live_tts/segmenter.py:378-389 | in every state, segments have non-decreasing source starts and ends within the text accepted; where two overlap, the overlap is three backticks of the source, so both speak part of one code cue |
| `LiveTextSegmenter.FragmentRanges` | src/live_tts/segmenter.py:378-389 | ranges of consecutive fragments of ordered items are in order, and an overlap is an opening fence of the source |
| `LiveTextSegmenter.SpeakText` | src/live_tts/server.py:658-677 | for every way of cutting a text into deltas, with idle flushes anywhere and one commit, the fragments spoken are the one-pass filter of the whole text, each cut at a boundary of what had arrived, and every segment is the cleaned text and range of its fragment |
| `LiveTextSegmenter.Hear` | src/live_tts/server.py:658-677 | after every delta and pause nothing that is ready is held back |
| `SegmentBoundaries.NextBoundaryIsEarliest` | src/live_tts/segmenter.py:208-239 | in natural and responsive mode the boundary is the earliest of the sentence, line, clause, comma and hard boundaries that the mode looks for, and there is none only if all are missing; the one exception is a natural boundary within the limits |
| `SegmentBoundaries.NaturalComesFirst` | src/live_tts/segmenter.py:214-227 | in natural mode the earlier of the sentence end and the line break is taken, even after the hard boundary, when the text up to it is within the limits |
| `SegmentBoundaries.InstantCutsOneWord` | src/live_tts/segmenter.py:208-212 | in instant mode a boundary is that of the hard limit, or cuts leading whitespace, exactly one word and all the whitespace after it; there is none only if no such word is complete |
| `SegmentBoundaries.HardBoundaryNearLimit` | src/live_tts/segmenter.py:269-286 | a hard cut uses more than half of its word or character limit; it is a clause end before the limit, or goes past the limit by no more than one space and the combining marks of its last character |
| `SegmentBoundaries.HardLimitLaw` | src/live_tts/segmenter.py:269-276 | the hard limit is where the last allowed word ends with its whitespace, else the character limit, or neither is reached |
| `SegmentBoundaries.NthWordLaw` | src/live_tts/segmenter.py:269-273 | the word limit is right after the whitespace of the nth word that ends in the text, or fewer than n words end in it |
| `SegmentBoundaries.WordCountLaw` | src/live_tts/segmenter.py:241-243 | the words counted are the places where one begins |
| `SegmentBoundaries.CommaBoundaryIsFirst` | src/live_tts/segmenter.py:232-235 | the comma boundary is the first comma before whitespace with at least four words up to it, or there is none |
| `SegmentBoundaries.IdleKeepsUnfinishedWord` | src/live_tts/segmenter.py:288-299 | an idle cut is right after the last blank, so an unfinished word stays, unless the text ends in whitespace or holds a finished sentence; then it takes everything |
| `SegmentBoundaries.NewlineBoundaryIsFirst` | src/live_tts/segmenter.py:245-264 | in natural mode the line boundary is the first place where a blank line ends or a structural line begins or ends, in responsive mode the first newline; there is none only if the text has no such place |
| `SentenceRules.SentenceBoundaryIsFirst` | src/live_tts/segmenter.py:301-310 | the search finds the end of the first sentence with its closing quotes, or there is none; stepping over the closers of an abbreviation misses nothing |
| `SentenceRules.SentenceEndsTextLaw` | src/live_tts/segmenter.py:322-331 | a text ends a sentence exactly if the first mark that nothing but closers follows is not that of an abbreviation |
| `SentenceRules.ClauseBoundaryIsFirst` | src/live_tts/segmenter.py:312-320 | the search finds the first semicolon or colon before whitespace, with its closing quotes, that does not end an HTML entity, or there is none; only a mark that belongs to a closing entity is passed over |
| `SentenceRules.CapClauseIsLast` | src/live_tts/segmenter.py:333-344 | the cap takes the last clause mark in the second half of the first `limit` characters, closing quotes included, or there is none in it; only a mark that belongs to a closing entity is passed over |
| `SentenceRules.GraphemeIsWhole` | src/live_tts/segmenter.py:358-376 | the cut moves right only over combining characters and joiners with what they join, after it comes no combining character and no joiner with something to join, and a text without them is cut where it was asked to be |
| `SplitSentences.Split` | src/live_tts/segmenter.py:392-422 | the nested loops terminate and return exactly the spans of the recursive windowed split |
| `SplitSentences.CutLaw` | src/live_tts/segmenter.py:406-416 | a sentence ends at the first sentence end; an overlong one at the last clause end in the second half of the cap, without one at the last space, else at the cap; and then after the combining characters that follow |
| `SplitSentences.CapCutLaw` | src/live_tts/segmenter.py:408-414 | where an overlong sentence is cut |
| `SplitSentences.SpansWellPlaced` | src/live_tts/segmenter.py:392-422 | spans are nonempty, ordered, disjoint, and start and end on non-space characters |
| `SplitSentences.SpansCoverText` | src/live_tts/segmenter.py:392-422 | every non-space character is in a span |
| `SplitSentences.SentencesWithinCap` | src/live_tts/segmenter.py:333-344 | without combining characters no span is longer than the cap |
| `SplitSentences.WindowedSplitIsExact` | src/live_tts/segmenter.py:392-422 | looking only at a window of cap + 64 characters gives the same spans as looking at the whole rest, if and only if every cut of the unwindowed split, grapheme extension included, fits the window |
| `SplitSentences.ShortClustersSplitAlike` | src/live_tts/segmenter.py:358-422 | so the spans are the same at any cap for every text in which no position is followed by more than 64 combining characters and joiners |
| `SplitSentences.StackedSplitsDiffer` | src/live_tts/segmenter.py:358-422 | the text for which they differ: one letter with 65 combining characters, at a cap of 1 |
| `SplitSentences.SourceEntitiesArePlain` | src/live_tts/segmenter.py:11-14 | the source's closing entities begin with an ampersand, hold no sentence mark, and no clause mark before their last character |
| `SplitSentences.SourceRulesAreLawful` | src/live_tts/segmenter.py:11-14 | the source's whitespace, closing quotes and closing entities meet what the results above require, for any combining characters that are no whitespace |
| `SplitSentences.SourceEntitiesAreDistinct` | src/live_tts/segmenter.py:11-14 | no closing entity of the source is a prefix of another |
| `SplitLong.Split` | src/reader/document.py:84-101 | pieces are nonempty, keep every non-space character in order, and are at most 1000 characters long unless a piece is one single sentence; for text without combining characters always at most 1000; each ends with the first sentence that gives it its even share, or before the first that does not fit |
| `SplitLong.Gather` | src/reader/document.py:90-100 | the loop over the sentences saves every non-space character up to its start, in pieces that fit a block |
| `SplitLong.Absorb` | src/reader/document.py:92-98 | one sentence: cut before it exactly if it would overflow, cut after it exactly if the even share is reached |
| `EdgeTrimmer.Trimmer.Push` | src/audio/postprocessing.py:26-57 | after every chunk, returned output plus held samples are the stream from the kept lead on |
| `EdgeTrimmer.Trimmer.Finish` | src/audio/postprocessing.py:59-65 | all output together is one slice of the whole stream |
| `EdgeTrimmer.TrimStream` | src/audio/postprocessing.py:8-78 | for every chunking, the output is the stream from max(0, first voiced - lead) to min(n, last voiced + 1 + tail), and empty if nothing is voiced |
| `EdgeTrimmer.NoPaddingIsTrimSilence` | src/audio/postprocessing.py:81-87 | with zero padding the streaming form equals `trim_silence` if and only if the stream is empty or has a voiced sample |
| `EdgeTrimmer.StartStep` | src/audio/postprocessing.py:40-47 | the chunk with the first voiced sample keeps exactly the lead before it |
| `EdgeTrimmer.ReleaseStep` | src/audio/postprocessing.py:54-57 | releasing up to the last voiced sample keeps the invariant |
| `InputAudioBuffer.InputAudioBuffer.Append` | src/realtime/audio_buffer.py:115-187 | events of a frame are those of the whole audio heard window by window, with offsets into the remaining buffer; a frame that does not fit any more changes nothing, one larger than the whole buffer empties it |
| `InputAudioBuffer.InputAudioBuffer.CommitThrough` | src/realtime/audio_buffer.py:195-201 | succeeds exactly within the buffer and returns exactly that prefix |
| `InputAudioBuffer.InputAudioBuffer.Commit` | src/realtime/audio_buffer.py:189-193 | returns everything not committed yet and starts a new epoch |
| `InputAudioBuffer.InputAudioBuffer.Clear` | src/realtime/audio_buffer.py:109-113 | forgets the audio but not the detector state |
| `InputAudioBuffer.Handler.HandleAppend` | src/realtime/server.py:183-239 | sent speech events and committed utterances are functions of the audio since the last clear, after every frame |
| `InputAudioBuffer.Handler.CommitUtterances` | src/realtime/server.py:217-239 | several utterances in one frame are committed one after the other, and no commit is out of range |
| `InputAudioBuffer.Handler.HandleEvent` | src/realtime/server.py:218-239 | one event: a speech end commits exactly up to its window |
| `InputAudioBuffer.WindowsAreEdges` | src/realtime/audio_buffer.py:145-185 | speech starts with the first voiced window, and stops exactly when an unbroken run of silent windows since the last voiced one has lasted for silence_duration_ms; the events are these edges with the times of their windows |
| `InputAudioBuffer.NextEvent` | src/realtime/server.py:227-239 | the byte count computed from the frame-relative offset is between 0 and what is left of the buffer |
| `InputAudioBuffer.UtterancesAreThePrefix` | src/realtime/audio_buffer.py:195-201 | committed utterances, joined, are the audio up to the last commit |
| `InputAudioBuffer.UtteranceOfStop` | src/realtime/server.py:227-239 | every speech end commits one utterance: the audio since the speech end before it |
| `InputAudioBuffer.PublishedAll` | src/realtime/server.py:218-226 | every event of the detector is sent, in order |
| `InputAudioBuffer.Remainder` | src/realtime/audio_buffer.py:189-201 | committed audio plus the remaining buffer is everything appended |
| `InputAudioBuffer.Receive` | src/realtime/server.py:183-239 | for every packetisation into even-length frames without overflow, events, timestamps and utterances are those of the edges between speech and silence in the whole audio |
| `StreamingSession.StreamingSession.HandleAudio` | src/streaming.py:281-299 | whatever the chunk boundaries, the state is a function of the audio received |
| `StreamingSession.StreamingSession.ProcessChunk` | src/streaming.py:325-398 | windows, start, silence counting and forced finalisation follow the window-by-window specification |
| `StreamingSession.StreamingSession.FinalizeUtterance` | src/streaming.py:469-526 | an open utterance of at least 3200 bytes in which the transcription finds words is followed by its final transcript and then speech_end; a short, blank or failed one by speech_end alone; then it is empty and inactive |
| `StreamingSession.FinalizeCloses` | src/streaming.py:469-526 | so an utterance that had to end has its final transcript in the trace exactly if it has words |
| `StreamingSession.WindowTells` | src/streaming.py:345-392 | one window: an utterance begins with the first voiced window after the one before, and ends with the first window at which it is 30 seconds long or silence has lasted for the endpointing time |
| `StreamingSession.FlushFinishes` | src/streaming.py:535-551 | the flush ends the utterance that is open, with its final transcript exactly if it has words |
| `StreamingSession.StreamingSession.Flush` | src/streaming.py:535-551 | after the flush every speech start has its end, and the trace tells exactly the utterances of the audio |
| `StreamingSession.WindowSound` | src/streaming.py:325-398 | one window keeps: while active, the utterance is exactly the 16 kHz stream from the recorded start to the samples processed, and is below the maximum plus one window |
| `StreamingSession.FinalizeSound` | src/streaming.py:469-526 | finalising keeps starts and ends alternating on every path, and a final event names exactly the samples transcribed |
| `StreamingSession.FlushBalances` | src/streaming.py:535-551 | flushing balances starts and ends |
| `StreamingSession.Run` | src/streaming.py:281-398 | however the audio is cut into even-length frames, the trace tells exactly the utterances of the whole, where each begins and ends by the voiced windows, with a final transcript exactly if it has words; starts and ends alternate, and every final event is exact |
| `ReaderPlanner.WindowShape` | src/reader/renderer.py:97-149 | a window has no gap from the requested block on, lies in the document, and is as long as the lookahead or reaches the end |
| `ReaderPlanner.NewPartLaw` | src/reader/renderer.py:128-146 | a newly cut part stays in its chapter, swallows no start of a ready part and is not headings alone while more joins; the first part of a window, and one longer than part_max_chars, has nothing but headings before its last block; any other goes on as far as part_max_chars allows |
| `ReaderPlanner.CutPartsLaw` | src/reader/renderer.py:97-149 | so in every planned window, in which a ready part stays as it is, and else the last queued part that begins there |
| `ReaderPlanner.LaterAgrees` | src/reader/store.py:228-235 | saves of the window and prunes that keep it never make the longest ready part differ from the planned one |
| `ReaderPlanner.Replanned` | src/reader/renderer.py:178-193 | planning from a part of the window, with the window as the queue, plans the rest again |
| `ReaderPlanner.WindowIsStable` | src/reader/renderer.py:178-193 | after a request returns window P, planning from the same block returns P, and planning from any part of P starts with the rest of P, in every state reached by saves of P and prunes keeping P |
| `ReaderPlanner.PlanWindow` | src/reader/renderer.py:117-149 | the cursor loop computes the specified window, and forgets every ready part it meets whose file is gone |
| `ReaderPlanner.NextInWindow` | src/reader/renderer.py:120-146 | ready part, else queued part, else a new cut |
| `ReaderPlanner.Renderer.PlanParts` | src/reader/renderer.py:97-149 | unknown document and block out of range are told apart; otherwise a gap-free window; no record with a file on disk is touched |
| `ReaderPlanner.Renderer.Request` | src/reader/renderer.py:178-189 | the planned window becomes the job and its errors are forgotten; a failed request changes neither |
| `ReaderPlanner.Renderer.NextPart` | src/reader/renderer.py:231-238 | the worker takes the first part of the job that is neither stored nor failed, and none only if there is none |
| `ReaderPlanner.Renderer.SaveRendered` | src/reader/renderer.py:293-366 | only a part that is still wanted is saved; the prune that follows keeps every part of the job |
| `ReaderPlanner.Renderer.Happen` | src/reader/renderer.py:263-291 | one worker or listener step keeps the window, and a worker step leaves one part less to do |
| `ReaderPlanner.Renderer.Ask` | src/reader/renderer.py:191-193 | a status poll from any part of the window returns the rest of the window |
| `ReaderPlanner.Renderer.Listen` | src/reader/renderer.py:178-193 | a whole run: the window is stable and the worker needs no more steps than the window has parts |
| `ReaderPlanner.Prune` | src/reader/store.py:275-298 | removes least recently used parts first, never a kept or recently played one, stops as soon as the total fits, and the running total is exact |
| `ReaderPlanner.PruneDone` | src/reader/store.py:287-296 | when the loop stops, the total fits or only kept and recent parts are left, and everything removed was used no later than anything removable that stayed |
| `LiveSession.LiveTTSSession.Append` | src/live_tts/server.py:532-557 | text is accepted exactly when it fits the buffer cap; counters and queue stay exact; otherwise the named error and no change |
| `LiveSession.LiveTTSSession.CommitInput` | src/live_tts/server.py:559-568 | a commit is queued behind the text, the idle timer is stopped, and input_text.committed is sent with the counter as it was |
| `LiveSession.LiveTTSSession.Pause` | src/live_tts/server.py:608-612 | playback.paused is sent, and the synthesis may not go on from then on |
| `LiveSession.LiveTTSSession.Resume` | src/live_tts/server.py:614-617 | playback flows again exactly if the unacknowledged time is below the limit and the session is not closing |
| `LiveSession.LiveTTSSession.Cancel` | src/live_tts/server.py:570-590 | queues, counters and playback are emptied, the generation grows and response.cancelled is sent, in one step |
| `LiveSession.LiveTTSSession.Ack` | src/live_tts/server.py:592-606 | an acknowledgement changes only its tracker, never raises the unacknowledged time, and is ignored when stale or unknown |
| `LiveOutput.AcknowledgedExactly` | src/live_tts/server.py:599-604 | exactly the frames after the acknowledged one stay |
| `LiveOutput.PopAcked` | src/live_tts/server.py:603-604 | the popping loop drops exactly the acknowledged prefix |
| `LiveSession.LiveTTSSession.Update` | src/live_tts/server.py:443-530 | session.updated only when no text was accepted, no response is active and no segment waits, and then nothing is queued or segmented either; otherwise session_busy, and invalid_event only for a malformed update |
| `LiveSession.LiveTTSSession.FireIdle` | src/live_tts/server.py:632-651 | the idle item takes the generation of the moment it fires |
| `LiveSession.LiveTTSSession.TakeInput` | src/live_tts/server.py:658-677 | the buffered count falls by exactly the text taken and is never clamped; accepted = given to the segmenter + buffered |
| `LiveSession.LiveTTSSession.PutSegment` | src/live_tts/server.py:674-677 | segments enter the bounded queue in order, only when there is room |
| `LiveSession.LiveTTSSession.TakeSegment` | src/live_tts/server.py:680-688 | items of an older generation are dropped |
| `LiveSession.LiveTTSSession.PassFlow` | src/live_tts/server.py:834-842 | when playback flows, a held segment is created, skipped, announced as the end of the input, or dropped as stale, and a held frame is sent or dropped as stale; when the session closes neither is; otherwise nothing changes |
| `LiveSession.LiveTTSSession.GoOn` | src/live_tts/server.py:680-739 | and then every segment the segmenter made for the generation is answered in order, or still pending |
| `LiveSession.LiveTTSSession.PassHeld` | src/live_tts/server.py:689-739 | the end of the input, nothing to say, or a new response with a fresh tracker |
| `LiveSession.LiveTTSSession.PassHolding` | src/live_tts/server.py:777-803 | a frame is tracked and sent together, unless its generation is over |
| `LiveSession.LiveTTSSession.TimeOutFlow` | src/live_tts/server.py:843-865 | a wait for playback that lasts too long is reported with the reason it began with, also when playback could go on again in that very moment |
| `LiveSession.LiveTTSSession.CloseFlow` | src/live_tts/server.py:867-873 | and then the session closes and the response ends as cancelled |
| `LiveSession.LiveTTSSession.TakeAudio` | src/live_tts/server.py:773-776 | a frame of a cancelled response is skipped |
| `LiveSession.LiveTTSSession.TakeEnd` | src/live_tts/server.py:760-772 | the end or failure of the worker ends the response |
| `LiveSession.LiveTTSSession.EndResponse` | src/live_tts/server.py:805-830 | the tracker stays only while frames are unacknowledged, so that no unacknowledged time is forgotten; the end is announced only for the current generation, and a failed response has no end of its audio |
| `LiveSession.LiveTTSSession.FinishResponse` | src/live_tts/server.py:810-832 | response.done follows the end of the audio |
| `LiveOutput.DeltaStep` | src/live_tts/server.py:781-803 | a tracked and sent frame keeps all output invariants, in particular unacknowledged time below the limit plus one frame |
| `LiveOutput.CancelStep` | src/live_tts/server.py:570-590 | a cancellation at any point of the synthesis keeps them |
| `LiveOutput.AckStep` | src/live_tts/server.py:592-606 | so does an acknowledgement |
| `LiveOutput.CreateStep` | src/live_tts/server.py:714-739 | so does a new response, whose id was never used |
| `LiveOutput.EndStep` | src/live_tts/server.py:805-832 | so does its end |
| `LiveOutput.PassKeeps` | src/live_tts/server.py:689-739 | letting a held segment go on loses none and answers none twice |
| `LiveTrace.ConservedAnswered` | src/live_tts/server.py:689-739 | the first pending segment of the generation is the one answered |
| `LiveTrace.ConservedCancelled` | src/live_tts/server.py:570-590 | a cancellation starts a generation of which nothing was said |
| `LiveTrace.OrderlyInTurn` | src/live_tts/server.py:532-832 | of any two events sent: after response.cancelled nothing but a response.done that was under way carries that generation, a response is created once and done at most once, no audio of it follows its end, and delta numbers strictly increase within one generation |
| `LiveTrace.DeltasNumbered` | src/live_tts/server.py:777-803 | the number of every delta is the number of deltas of its response sent before it: 0, 1, 2, ... without a gap |
| `LiveSession.LiveTTSSession.Do` | src/live_tts/server.py:422-442 | every client event is answered by its own reply, and every step of a task that can go on does |
| `LiveSession.Run` | src/live_tts/server.py:532-876 | in every interleaving of client, segmenter, synthesis and worker: all of the above; what was said about the segments of the generation (created, skipped, end of input) is a prefix of what the segmenter made, and unless the session closes the rest is held or queued; unacknowledged playback below the limit plus one frame, each deque exactly acked+1 to last sent, buffered characters equal to the queued text and within the cap |
| `RealtimeSession.RealtimeSession.Create` | src/realtime/server.py:266-283 | one response at a time; a second request is refused with an error |
| `RealtimeSession.RealtimeSession.Start` | src/realtime/server.py:294-378 | a task cancelled before its first step never creates a response; one without text is rejected |
| `RealtimeSession.RealtimeSession.Slice` | src/realtime/server.py:450-465 | a slice is sent exactly when the ideal client holds no more than the lead; a delta goes out during a pending barge-in if and only if the task was released from the gate before the gate closed again |
| `RealtimeSession.RealtimeSession.Deliver` | src/realtime/server.py:461-465 | the next slice of at most 3000 bytes is sent; what was sent plus what is left is what the worker gave |
| `RealtimeSession.RealtimeSession.Fetch` | src/realtime/server.py:448-449 | a chunk is taken whole; its end leads to the end of the response |
| `RealtimeSession.RealtimeSession.EndSynthesis` | src/realtime/server.py:468-473 | audio done is sent only after all audio; the check for a cancelled response before it never finds one |
| `RealtimeSession.RealtimeSession.Complete` | src/realtime/server.py:505-506 | the response becomes terminal before response.done is sent |
| `RealtimeSession.RealtimeSession.Fail` | src/realtime/server.py:511-517 | a failure makes the response terminal before the error is sent |
| `RealtimeSession.RealtimeSession.Throw` | src/realtime/server.py:507-510 | a cancellation that reaches a created response ends it with exactly one response.done |
| `RealtimeSession.RealtimeSession.EndRun` | src/realtime/server.py:305-314 | the finished task ends the barge-in and leaves no response |
| `RealtimeSession.RealtimeSession.CancelResponse` | src/realtime/server.py:525-545 | only a response that is not terminal is cancelled, and only once |
| `RealtimeSession.RealtimeSession.StartSpeech` | src/realtime/server.py:555-568 | speech over a reply closes the gate and arms the timer, or cancels at once when there will be no transcript |
| `RealtimeSession.RealtimeSession.StopSpeech` | src/realtime/server.py:227-239 | the timer is stopped; with enough audio the commit that resolves the barge-in begins and nothing else changes, with too little it is resolved and a task at the gate is released |
| `RealtimeSession.RealtimeSession.CommitByHand` | src/realtime/server.py:608-626 | a manual commit resolves a barge-in too |
| `RealtimeSession.RealtimeSession.EndCommit` | src/realtime/server.py:583-599 | every end of a commit resolves the barge-in and releases a task at the gate; only an interrupting transcript cancels the response, after any other the next event is handled |
| `RealtimeSession.RealtimeSession.FireTimer` | src/realtime/server.py:570-581 | the deadline resolves the barge-in and cancels the response |
| `RealtimeSession.RealtimeSession.EndBargeIn` | src/realtime/server.py:596-606 | pending and gate change together, and a task waiting at the gate is released |
| `RealtimeSession.RealtimeSession.CancelByClient` | src/realtime/server.py:522-523 | a client cancellation |
| `RealtimeSession.RealtimeSession.Close` | src/realtime/server.py:110-126 | closing ends the barge-in and cancels a response that is not terminal |
| `RealtimeSession.PacedDelta` | src/realtime/server.py:450-465 | playback_ends is exactly when an ideal client runs out, and after a delta it holds at most the lead plus one slice |
| `RealtimeSession.AheadIsLeft` | src/realtime/server.py:452-455 | the computed head start equals what an ideal client still holds |
| `RealtimeSession.OrderlyInTurn` | src/realtime/server.py:327-520 | of any two events sent: at most one response.done for a response and no audio of it afterwards |
| `RealtimeSession.Run` | src/realtime/server.py:266-620 | in every run: the above; every created response is done or still running; the gate is closed exactly while a barge-in is pending; a pending one has a live timer or a commit in progress; at most one delta is sent in it; an ideal client never holds more than the lead plus one 3000-byte slice |
| `RealtimeSession.RealtimeSession.Do` | src/realtime/server.py:266-620 | every step of the response task that can go on does, and sends what it has to |
| `RealtimeSession.DeltaInBargeIn` | src/realtime/server.py:451-465 | a concrete run in which a delta is sent while a barge-in is pending: an utterance that interrupts nothing is followed by speech before the task has its turn |
| `NamedVoices.StoredIsResolved` | src/profiles.py:122-135 | the copy a linked preset stores is what its realization says |
| `NamedVoices.DetachedLaw` | src/voice_identities.py:113-120 | detaching the presets of a realization changes the voice of no preset, even after the realization is gone, and touches no preset that is not linked to the voice |
| `NamedVoices.RevoicedLaw` | src/voice_identities.py:80-94 | after an update exactly the linked presets resolve to the new voice; they stay linked, under the same name, backend and model, and no other preset changes |
| `NamedVoices.Catalog.CreateVoice` | src/voice_identities.py:15-30 | names are unique without regard to case |
| `NamedVoices.Catalog.Rename` | src/voice_identities.py:67-78 | so they are after a rename |
| `NamedVoices.Catalog.AddRealization` | src/voice_identities.py:122-148 | at most one realization for a voice and model, never of a named voice; no preset changes its voice |
| `NamedVoices.Catalog.UpdateRealization` | src/voice_identities.py:80-94 | the linked presets follow and stay linked, nobody else changes, and errors change nothing |
| `NamedVoices.Catalog.DeleteRealization` | src/voice_identities.py:96-101 | no preset changes what it resolves to, and none stays linked to the realization |
| `NamedVoices.Catalog.DeleteVoice` | src/voice_identities.py:103-111 | no preset changes what it resolves to, none stays linked to the voice, and other voices keep their realizations |
| `NamedVoices.Catalog.DetachAll` | src/voice_identities.py:107-109 | the loop over the realizations detaches every linked preset |
| `NamedVoices.Catalog.Resolve` | src/voice_identities.py:150-155 | the realization of exactly the model, or the error that names what is missing |
| `NamedVoices.Catalog.CreatePreset` | src/profiles.py:28-63 | a linked preset takes over the realization of its effective model; without one it is refused |
| `NamedVoices.Catalog.UpdatePreset` | src/profiles.py:77-120 | a change of model, voice, blend or reference unlinks, any other change of a linked preset is resolved anew, and the copy agrees afterwards |
| `NamedVoices.Catalog.ResolvePreset` | src/profiles.py:122-135 | every stored preset resolves, and to what it stores |
| `NamedVoices.Catalog.DeletePreset` | src/profiles.py:164-168 | deleting a preset leaves the others in agreement |
| `NamedVoices.Catalog.MigrateLegacy` | src/voice_identities.py:171-212 | the migration changes only links and never what a preset resolves to; a preset stays unlinked only for want of a model or because the voice of its name has another recipe |
| `NamedVoices.Catalog.LinkLegacy` | src/voice_identities.py:174-212 | one row of it |
| `NamedVoices.LinkLaw` | src/voice_identities.py:186-212 | linking a preset to a realization of its own recipe changes no voice |
| `NamedVoices.Catalog.ImportPresets` | src/profiles.py:137-162 | a name never imported before and used by no preset gets exactly one preset with the wanted recipe, which it also resolves to; existing presets stay as they are |
| `QwenSplit.SplitText` | providers/qwen3/app.py:361-378 | no character but whitespace is lost or reordered; every segment is trimmed, nonempty and within the limit unless it is a single character, and within it always when the limit is at least one wide character; no token budget is cut below its estimate |
| `QwenSplit.SentenceParts` | providers/qwen3/app.py:324-358 | the scanning loops cut the text exactly where a sentence ends: a mark, all its closers, and whitespace after a Latin mark |
| `QwenSplit.AppendAllKeeps` | providers/qwen3/app.py:327-334 | gluing loses nothing, and only the first part may lack letters and digits |
| `QwenSplit.PartsCounted` | providers/qwen3/app.py:327-334 | only a piece without letters and digits is glued to the part before it |
| `QwenSplit.PartsKeep` | providers/qwen3/app.py:336-358 | cutting loses nothing but whitespace |
| `QwenSplit.AfterMark` | providers/qwen3/app.py:343-356 | what the loop decides at a mark is what the declarative rule says |
| `QwenSplit.PrefixWithin` | providers/qwen3/app.py:314-321 | the longest prefix within the limit, but at least one character |
| `QwenSplit.SplitPointLaw` | providers/qwen3/app.py:367-373 | a segment ends at the last space of the longest prefix within the limit if this leaves at least half of the limit, else at the end of that prefix |
| `QwenSplit.SegmentsCutUp` | providers/qwen3/app.py:366-377 | a sentence within the limit stays whole; any other is cut at such a point, and its rest likewise |
| `QwenSplit.SplitSentence` | providers/qwen3/app.py:366-377 | the cutting loop terminates and returns the specified segments |
| `QwenSplit.SegmentBounded` | providers/qwen3/app.py:367-374 | each cut is trimmed, nonempty and bounded |
| `QwenSplit.SegmentsKeep` | providers/qwen3/app.py:361-378 | segments lose nothing but whitespace |
| `QwenSplit.NeverClamped` | providers/qwen3/app.py:292-302 | ceil(2.25 x units) + 48 never exceeds the ceiling for a text within the limit, because units are whole tenths |
| `QwenSplit.SourceTablesAreLawful` | providers/qwen3/app.py:48-50 | the source's marks, closers and whitespace do not overlap |
| `ReaderPages.PagesFor` | src/static/reader.js:178-202 | pages partition [0, count) into nonempty contiguous runs of at most PAGE_BLOCKS; an edge falls inside a chapter only if that chapter is longer than a page, and then it is sliced evenly into as few pages as can hold it; whole chapters are left for the next page only when they do not fit |
| `ReaderPages.Slices` | src/static/reader.js:188-194 | a chapter longer than a page becomes slices that cover it, as few as pages of that size can hold, each nonempty, at most a page and within one block of an even share |
| `ReaderPages.SliceEven` | src/static/reader.js:191-193 | a slice has a block less or more than its even share at most |
| `ReaderPages.SliceFits` | src/static/reader.js:191-193 | rounding the edges never makes a slice empty or longer than a page |
| `ReaderPages.StartsAreChapters` | src/static/reader.js:180-182 | the chapter starts are block 0 and every listed start in range, each once, in order |
| `ReaderPages.PageOf` | src/static/reader.js:204-214 | the binary search returns the unique page that holds the block, and the first or last page outside |
| `RateLimiter.GrantedWithinBurst` | src/middleware.py:138-170 | from any reachable state, a stretch of length T grants a client at most burst + rate x T requests |
| `RateLimiter.BoundedExactly` | src/middleware.py:138-182 | with cleanups at arbitrary moments that bound holds for every run if and only if burst <= 3600 x rate |
| `RateLimiter.CleanupHarmlessExactly` | src/middleware.py:172-182 | cleaning up at arbitrary moments changes no answer of any run if and only if burst <= 3600 x rate |
| `RateLimiter.TwoBurstsGranted` | src/middleware.py:138-182 | the run that shows the other case: a burst, a cleanup just after an hour, another burst |
| `RateLimiter.RetryAfterIsEnough` | src/middleware.py:159-164 | a refused client that waits the advertised time is allowed, whatever the others do and whenever buckets are dropped; one that comes back more than a second early is refused again |
| `RateLimiter.RunStaysSound` | src/middleware.py:138-182 | tokens stay between 0 and the burst |
| `RateLimiter.Limiter.Check` | src/middleware.py:138-170 | the answer, its headers and the new bucket |
| `RateLimiter.Limiter.Cleanup` | src/middleware.py:172-177 | the loop removes exactly the stale buckets |
| `RateLimiter.Limiter.Serve` | src/middleware.py:138-182 | a whole run answers as specified and leaves sound buckets |
| `VoiceLibrary.Library.Save` | src/voice_library.py:78-177 | a save is refused by the rules, or saved, or rolled back, or its rollback failed, and the files are what each case promises; the library never exceeds its limit; without faults nothing temporary remains |
| `VoiceLibrary.Library.ReplacePair` | src/voice_library.py:134-175 | the transaction with a fault at any file operation |
| `VoiceLibrary.Library.Install` | src/voice_library.py:141-151 | after a failure at any step, the files are as the progress flags say |
| `VoiceLibrary.Library.RollBack` | src/voice_library.py:152-157 | a rollback that succeeds restores the old pair exactly; one that fails leaves the old audio under the live or backup name |
| `VoiceLibrary.Library.CleanUp` | src/voice_library.py:158-166 | only files of the transaction are removed, and the backup only after a commit |
| `VoiceLibrary.Library.RemoveObsolete` | src/voice_library.py:168-175 | only audio of the same voice under another extension is removed |
| `VoiceLibrary.ReadersSee` | src/voice_library.py:202-216 | a reader gets the new pair after a success and the old one after a rollback, and no outcome touches another voice |
| `VoiceLibrary.Library.Get` | src/voice_library.py:202-216 | the audio the metadata points at, or nothing |
| `VoiceLibrary.Library.Check` | src/voice_library.py:86-132 | the refusals, in the order of the source |
| `Backchannel.IsBackchannel` | src/realtime/backchannel.py:35-47 | true exactly when the word list is nonempty, no longer than MAX_WORDS and a concatenation of dictionary phrases, for every dictionary |
| `Backchannel.TiledByLastPhrase` | src/realtime/backchannel.py:42-46 | one row of the table: the bound on the phrase length loses no tiling |

## Left out

- Regular expressions, Unicode tables, the list of abbreviations and `clean_markdown`: predicates and functions of the rules, which may be any.
- A cap on the length of one segment: the word-count branch of the hard boundary is tried first, so there is none.
- Streaming sessions without voice detection, and interim transcripts with their word agreement.
- Resampling: an uninterpreted function that is additive over whole chunks of even length; a chunk length setting that makes the source's chunk size 0 is excluded.
- Realtime frames of odd length, formats other than PCM16, and session updates that replace the audio buffer.
- Rounding of floating-point numbers: times, token counts, text units and durations are exact numbers here.
- Part records of an older renderer version, which planning forgets first, and the cached outline of a deleted document.
- Two threads between the check that a part is still wanted and its save: both are one step.
- Synthesis, encoding and the file write of a part; only the save and the prune after it are modelled.
- Live sessions: what the segmenter makes of an item of the input is any list of segments (`LiveTextSegmenter` states which); `session.status` events, the worker thread itself (its frames arrive one by one, each no longer than one frame), the order of response.done against response.cancelled, and the receive loop's own checks of an expired pause or idle connection.
- Live sessions: a response counts as over when response.done is handed to the socket, not when it has gone out; how long a wait for playback may last (it may time out at any moment); the settings that an update changes, and the threads that look them up.
- Realtime sessions: the items and events around a commit, and the extra events of the newer protocol between audio done and response done.
- A transcription result that is not text: the source would leave the barge-in unresolved with an error.
- Named voices: ids are numbers; an empty string as the id of a named voice counts as none; timestamps, effects and other fields of a preset that play no part.
- Qwen3: model loading, prompts and generation; only the splitting of the text and its token budget.
- Rate limiter: how a client's address is found; `cleanup` is an event of its own, at any moment.
- Voice library: listing, deletion and transcript updates, the inspection of the WAV data, and failures of the existence checks.
- Backchannel: how text becomes words.
- HTTP, WebSocket, database and file system calls themselves, authentication, history, caches, batch jobs, conversations, model management and the clients.
