/** `StreamingSession` with voice activity detection: every speech start is matched by one speech
    end, and what is transcribed is exactly the stretch of audio that the final event names. */
module StreamingSession {
  import opened Text

  type Bytes = seq<bv8>

  const WINDOW_SAMPLES: nat := 512
  const WINDOW_BYTES: nat := 1024
  const MIN_UTTERANCE_BYTES: nat := 3200
  const MAX_UTTERANCE_BYTES: nat := 30 * 16000 * 2

  datatype Outcome = Words | Blank | Failed

  /** `heard` is the detector over all audio it was fed, `backend` the result of the final
      transcription of the utterance that starts at a given sample. */
  datatype Config = Config(
    chunkBytes: nat,
    resample: Bytes -> Bytes,
    heard: Bytes -> bool,
    backend: nat -> Outcome,
    endpointingSamples: int
  )

  /** Chunks are not empty, and resampling gives whole 16-bit samples. */
  ghost predicate Lawful(c: Config) {
    c.chunkBytes > 0 && c.chunkBytes % 2 == 0 && forall chunk {:trigger c.resample(chunk)} :: |c.resample(chunk)| % 2 == 0
  }

  /** Events sent, with times in samples at 16 kHz. The start and end of speech are sent without them,
      and a final transcript without the audio it is of. */
  datatype Event = SpeechStart(at: nat) | SpeechEnd(at: nat) | Final(start: nat, end: nat, audio: Bytes)

  datatype Trace = Nothing | Then(before: Trace, event: Event)

  datatype State = State(processed: nat, active: bool, start: nat, audio: Bytes, silence: nat, trace: Trace)

  // ── The session as a function of the 16 kHz stream ──────────────────────────────────

  const Initial := State(0, false, 0, [], 0, Nothing)

  function Reset(s: State): State { s.(active := false, silence := 0, audio := []) }

  function Finalize(c: Config, s: State, end: nat): State {
    if |s.audio| < MIN_UTTERANCE_BYTES then
      Reset(s.(trace := if s.active then Then(s.trace, SpeechEnd(end)) else s.trace))
    else
      match c.backend(s.start)
      case Failed => Reset(s.(trace := Then(s.trace, SpeechEnd(end))))
      case Blank => Reset(s.(trace := Then(s.trace, SpeechEnd(end))))
      case Words => Reset(s.(trace := Then(Then(s.trace, Final(s.start, end, s.audio)), SpeechEnd(end))))
  }

  /** One window; `speech` is the detector's verdict. */
  function Window(c: Config, s: State, window: Bytes, speech: bool): State {
    var end := s.processed + WINDOW_SAMPLES;
    var t := s.(processed := end);
    if speech then
      var u := if t.active then t.(silence := 0)
               else t.(silence := 0, active := true, start := s.processed, audio := [], trace := Then(t.trace, SpeechStart(s.processed)));
      var v := u.(audio := u.audio + window);
      if |v.audio| >= MAX_UTTERANCE_BYTES then Finalize(c, v, end) else v
    else if t.active then
      var v := t.(silence := t.silence + WINDOW_SAMPLES, audio := t.audio + window);
      if |v.audio| >= MAX_UTTERANCE_BYTES || v.silence >= c.endpointingSamples then Finalize(c, v, end) else v
    else t
  }

  function Windows(c: Config, stream: Bytes, n: nat): State
    requires n * WINDOW_BYTES <= |stream|
  {
    if n == 0 then Initial
    else Window(c, Windows(c, stream, n - 1), stream[(n - 1) * WINDOW_BYTES..n * WINDOW_BYTES],
                c.heard(stream[..n * WINDOW_BYTES]))
  }

  /** The end of the session: a partial window still belongs to the open utterance. */
  function Flushed(c: Config, s: State, tail: Bytes): State {
    var t := if tail == [] then s
             else s.(audio := if s.active then s.audio + tail else s.audio, processed := s.processed + |tail| / 2);
    if t.active && t.audio != [] then Finalize(c, t, t.processed) else t
  }

  // ── What holds in every state ───────────────────────────────────────────────────────

  /** Speech starts and ends alternate, beginning with a start; `open` says which came last. */
  ghost predicate Alternates(trace: Trace, open: bool) {
    match trace
    case Nothing => !open
    case Then(before, SpeechStart(_)) => open && Alternates(before, false)
    case Then(before, SpeechEnd(_)) => !open && Alternates(before, true)
    case Then(before, _) => Alternates(before, open)
  }

  /** Every final event names exactly the audio that was transcribed for it. */
  ghost predicate Exact(trace: Trace, stream: Bytes) {
    match trace
    case Nothing => true
    case Then(before, Final(start, end, audio)) =>
      && start < end && 2 * end <= |stream| && audio == stream[2 * start..2 * end]
      && MIN_UTTERANCE_BYTES <= |audio| < MAX_UTTERANCE_BYTES + WINDOW_BYTES
      && Exact(before, stream)
    case Then(before, _) => Exact(before, stream)
  }

  /** While speech is active the utterance is the stream from the recorded start to what was
      processed, and below the maximum; otherwise there is none. */
  ghost predicate Sound(s: State, stream: Bytes) {
    match s
    case State(processed, active, start, audio, _, trace) =>
      && 2 * processed <= |stream| && Alternates(trace, active) && Exact(trace, stream)
      && (if active then start < processed && audio == stream[2 * start..2 * processed] && |audio| < MAX_UTTERANCE_BYTES
          else audio == [])
  }

  lemma FinalizeSound(c: Config, s: State, stream: Bytes)
    requires s.active && Alternates(s.trace, true) && Exact(s.trace, stream)
    requires s.start < s.processed && 2 * s.processed <= |stream| && s.audio == stream[2 * s.start..2 * s.processed]
    requires |s.audio| < MAX_UTTERANCE_BYTES + WINDOW_BYTES
    ensures Sound(Finalize(c, s, s.processed), stream) && !Finalize(c, s, s.processed).active
    ensures Finalize(c, s, s.processed).processed == s.processed
  {
  }

  /** The utterance after a window: it goes on below the maximum, or it is finalised. */
  lemma UtteranceSound(c: Config, s: State, stream: Bytes, ends: bool)
    requires s.active && Alternates(s.trace, true) && Exact(s.trace, stream)
    requires s.start < s.processed && 2 * s.processed <= |stream| && s.audio == stream[2 * s.start..2 * s.processed]
    requires |s.audio| < MAX_UTTERANCE_BYTES + WINDOW_BYTES && (|s.audio| < MAX_UTTERANCE_BYTES || ends)
    ensures var after := if ends then Finalize(c, s, s.processed) else s;
            Sound(after, stream) && after.processed == s.processed
  {
    if ends { FinalizeSound(c, s, stream); }
  }

  lemma WindowSound(c: Config, s: State, stream: Bytes, window: Bytes, speech: bool)
    requires Sound(s, stream) && 2 * s.processed + WINDOW_BYTES <= |stream|
    requires window == stream[2 * s.processed..2 * s.processed + WINDOW_BYTES]
    ensures Sound(Window(c, s, window, speech), stream)
    ensures Window(c, s, window, speech).processed == s.processed + WINDOW_SAMPLES
  {
    var end := s.processed + WINDOW_SAMPLES;
    if s.active {
      var silence := if speech then 0 else s.silence + WINDOW_SAMPLES;
      assert s.audio + window == stream[2 * s.start..2 * end];
      UtteranceSound(c, State(end, true, s.start, s.audio + window, silence, s.trace), stream,
                     |s.audio + window| >= MAX_UTTERANCE_BYTES || (!speech && silence >= c.endpointingSamples));
    } else if speech {
      assert [] + window == window == stream[2 * s.processed..2 * end];
      UtteranceSound(c, State(end, true, s.processed, window, 0, Then(s.trace, SpeechStart(s.processed))), stream, false);
    }
  }

  lemma {:induction false} WindowsSound(c: Config, stream: Bytes, n: nat)
    requires n * WINDOW_BYTES <= |stream|
    ensures Sound(Windows(c, stream, n), stream) && Windows(c, stream, n).processed == n * WINDOW_SAMPLES
  {
    if n > 0 {
      var before, window := Windows(c, stream, n - 1), stream[(n - 1) * WINDOW_BYTES..n * WINDOW_BYTES];
      WindowsSound(c, stream, n - 1);
      WindowSound(c, before, stream, window, c.heard(stream[..n * WINDOW_BYTES]));
    }
  }

  lemma {:induction false} WindowsOfPrefix(c: Config, stream: Bytes, more: Bytes, n: nat)
    requires n * WINDOW_BYTES <= |stream|
    ensures Windows(c, stream + more, n) == Windows(c, stream, n)
  {
    if n > 0 {
      WindowsOfPrefix(c, stream, more, n - 1);
      assert (stream + more)[(n - 1) * WINDOW_BYTES..n * WINDOW_BYTES] == stream[(n - 1) * WINDOW_BYTES..n * WINDOW_BYTES];
      assert (stream + more)[..n * WINDOW_BYTES] == stream[..n * WINDOW_BYTES];
    }
  }

  /** After the flush every speech start has its end, on every path, failed transcriptions included. */
  lemma FlushBalances(c: Config, s: State, stream: Bytes)
    requires Sound(s, stream) && |stream| % 2 == 0 && |stream| < 2 * s.processed + WINDOW_BYTES
    ensures var done := Flushed(c, s, stream[2 * s.processed..]);
            Sound(done, stream) && !done.active && Alternates(done.trace, false) && 2 * done.processed == |stream|
  {
    var tail := stream[2 * s.processed..];
    if s.active {
      assert s.audio + tail == stream[2 * s.start..|stream|];
      var end := |stream| / 2;
      assert stream[2 * s.start..2 * end] == s.audio + tail;
      FinalizeSound(c, s.(audio := s.audio + tail, processed := end), stream);
      if tail == [] { assert s.audio + tail == s.audio; }
    }
  }

  // ── Which events there are: speech and its ends, window by window ───────────────────

  predicate Voiced(c: Config, stream: Bytes, i: nat) {
    (i + 1) * WINDOW_BYTES <= |stream| && c.heard(stream[..(i + 1) * WINDOW_BYTES])
  }

  /** The unvoiced windows at the end of the windows a, ..., n - 1. */
  function Quiet(c: Config, stream: Bytes, a: nat, n: nat): nat {
    if n <= a || Voiced(c, stream, n - 1) then 0 else 1 + Quiet(c, stream, a, n - 1)
  }

  /** An utterance that began with window `a` has to end before window `e`: it is too long, or the
      silence is. */
  predicate Due(c: Config, stream: Bytes, a: nat, e: nat) {
    a < e && ((e - a) * WINDOW_BYTES >= MAX_UTTERANCE_BYTES
              || (!Voiced(c, stream, e - 1) && Quiet(c, stream, a, e) * WINDOW_SAMPLES >= c.endpointingSamples))
  }

  ghost predicate NotDue(c: Config, stream: Bytes, a: nat, n: nat) {
    forall e :: a < e < n ==> !Due(c, stream, a, e)
  }

  ghost predicate Still(c: Config, stream: Bytes, lo: nat, hi: nat) {
    forall i :: lo <= i < hi ==> !Voiced(c, stream, i)
  }

  /** An utterance that is long enough, and in which the transcription finds words. */
  predicate HasWords(c: Config, start: nat, end: nat) {
    2 * (end - start) >= MIN_UTTERANCE_BYTES && c.backend(start) == Words
  }

  /** The last event is the start of an utterance at window `a`, the first voiced one since the
      utterance before it. */
  ghost predicate Opened(c: Config, stream: Bytes, t: Trace, a: nat)
    decreases t
  {
    && t.Then? && t.event == SpeechStart(a * WINDOW_SAMPLES) && Voiced(c, stream, a)
    && exists b: nat :: b <= a && Closed(c, stream, t.before, b) && Still(c, stream, b, a)
  }

  /** No utterance is open, and the last one ended at window `b`, as soon as it had to. */
  ghost predicate Closed(c: Config, stream: Bytes, t: Trace, b: nat)
    decreases t
  {
    if t.Nothing? then b == 0
    else
      && t.event == SpeechEnd(b * WINDOW_SAMPLES)
      && exists a: nat ::
           && Due(c, stream, a, b) && NotDue(c, stream, a, b)
           && b * WINDOW_BYTES <= |stream|
           && if HasWords(c, a * WINDOW_SAMPLES, b * WINDOW_SAMPLES) then
                t.before.Then? && t.before.event == Final(a * WINDOW_SAMPLES, b * WINDOW_SAMPLES, stream[a * WINDOW_BYTES..b * WINDOW_BYTES])
                && Opened(c, stream, t.before.before, a)
              else Opened(c, stream, t.before, a)
  }

  /** Of the whole session: after the last utterance there is silence, or it was open and ended with
      the audio. Each has its final transcript exactly if it has words. */
  ghost predicate Finished(c: Config, stream: Bytes, t: Trace) {
    var n, end := |stream| / WINDOW_BYTES, |stream| / 2;
    || (exists b: nat :: b <= n && Closed(c, stream, t, b) && Still(c, stream, b, n))
    || (t.Then? && t.event == SpeechEnd(end)
        && exists a: nat ::
             && a < n && NotDue(c, stream, a, n + 1)
             && if HasWords(c, a * WINDOW_SAMPLES, end) then
                  t.before.Then? && t.before.event == Final(a * WINDOW_SAMPLES, end, stream[a * WINDOW_BYTES..])
                  && Opened(c, stream, t.before.before, a)
                else Opened(c, stream, t.before, a))
  }

  /** What the state says after `n` windows. */
  ghost predicate Tells(c: Config, stream: Bytes, s: State, n: nat) {
    && n * WINDOW_BYTES <= |stream| && s.processed == n * WINDOW_SAMPLES
    && if s.active then exists a: nat :: Speaks(c, stream, s, a, n)
       else exists b: nat :: b <= n && Closed(c, stream, s.trace, b) && Still(c, stream, b, n)
  }

  ghost predicate Speaks(c: Config, stream: Bytes, s: State, a: nat, n: nat) {
    && a < n && n * WINDOW_BYTES <= |stream| && s.active
    && s.start == a * WINDOW_SAMPLES && s.silence == Quiet(c, stream, a, n) * WINDOW_SAMPLES
    && s.audio == stream[a * WINDOW_BYTES..n * WINDOW_BYTES]
    && Opened(c, stream, s.trace, a) && NotDue(c, stream, a, n + 1)
  }

  lemma FinalizeCloses(c: Config, stream: Bytes, s: State, a: nat, b: nat)
    requires a < b && b * WINDOW_BYTES <= |stream| && s.active && s.start == a * WINDOW_SAMPLES
    requires s.audio == stream[a * WINDOW_BYTES..b * WINDOW_BYTES] && Opened(c, stream, s.trace, a)
    requires Due(c, stream, a, b) && NotDue(c, stream, a, b)
    ensures Closed(c, stream, Finalize(c, s, b * WINDOW_SAMPLES).trace, b)
  {
    assert |s.audio| == 2 * (b * WINDOW_SAMPLES - a * WINDOW_SAMPLES);
  }

  /** Another window of an utterance that is open, or has just begun. */
  lemma UtteranceTells(c: Config, stream: Bytes, s: State, a: nat, n: nat)
    requires a <= n && (n + 1) * WINDOW_BYTES <= |stream| && s.active && s.processed == (n + 1) * WINDOW_SAMPLES
    requires s.start == a * WINDOW_SAMPLES && s.silence == Quiet(c, stream, a, n + 1) * WINDOW_SAMPLES
    requires s.audio == stream[a * WINDOW_BYTES..(n + 1) * WINDOW_BYTES]
    requires Opened(c, stream, s.trace, a) && NotDue(c, stream, a, n + 1)
    ensures Tells(c, stream, if Due(c, stream, a, n + 1) then Finalize(c, s, s.processed) else s, n + 1)
  {
    if Due(c, stream, a, n + 1) {
      FinalizeCloses(c, stream, s, a, n + 1);
      assert Still(c, stream, n + 1, n + 1);
    } else {
      assert Speaks(c, stream, s, a, n + 1);
    }
  }

  lemma GoesOn(c: Config, stream: Bytes, s: State, a: nat, n: nat)
    requires Speaks(c, stream, s, a, n) && s.processed == n * WINDOW_SAMPLES && (n + 1) * WINDOW_BYTES <= |stream|
    ensures Tells(c, stream, Window(c, s, stream[n * WINDOW_BYTES..(n + 1) * WINDOW_BYTES], Voiced(c, stream, n)), n + 1)
  {
    var window := stream[n * WINDOW_BYTES..(n + 1) * WINDOW_BYTES];
    assert s.audio + window == stream[a * WINDOW_BYTES..(n + 1) * WINDOW_BYTES];
    var silence := if Voiced(c, stream, n) then 0 else s.silence + WINDOW_SAMPLES;
    UtteranceTells(c, stream, State(s.processed + WINDOW_SAMPLES, true, s.start, s.audio + window, silence, s.trace), a, n);
  }

  lemma Begins(c: Config, stream: Bytes, s: State, n: nat)
    requires Tells(c, stream, s, n) && !s.active && (n + 1) * WINDOW_BYTES <= |stream| && Voiced(c, stream, n)
    ensures Tells(c, stream, Window(c, s, stream[n * WINDOW_BYTES..(n + 1) * WINDOW_BYTES], true), n + 1)
  {
    var window := stream[n * WINDOW_BYTES..(n + 1) * WINDOW_BYTES];
    assert [] + window == window;
    UtteranceTells(c, stream, State(s.processed + WINDOW_SAMPLES, true, s.processed, window, 0, Then(s.trace, SpeechStart(s.processed))), n, n);
  }

  lemma WindowTells(c: Config, stream: Bytes, s: State, n: nat)
    requires Tells(c, stream, s, n) && (n + 1) * WINDOW_BYTES <= |stream|
    ensures Tells(c, stream, Window(c, s, stream[n * WINDOW_BYTES..(n + 1) * WINDOW_BYTES], Voiced(c, stream, n)), n + 1)
  {
    if s.active {
      var a: nat :| Speaks(c, stream, s, a, n);
      GoesOn(c, stream, s, a, n);
    } else if Voiced(c, stream, n) {
      Begins(c, stream, s, n);
    } else {
      var b: nat :| b <= n && Closed(c, stream, s.trace, b) && Still(c, stream, b, n);
      assert Still(c, stream, b, n + 1);
    }
  }

  lemma {:induction false} WindowsTell(c: Config, stream: Bytes, n: nat)
    requires n * WINDOW_BYTES <= |stream|
    ensures Tells(c, stream, Windows(c, stream, n), n)
  {
    if n == 0 {
      NothingTells(c, stream);
    } else {
      var m: nat := n - 1;
      WindowsTell(c, stream, m);
      WindowTells(c, stream, Windows(c, stream, m), m);
      NextWindow(c, stream, m);
    }
  }

  lemma NextWindow(c: Config, stream: Bytes, m: nat)
    requires (m + 1) * WINDOW_BYTES <= |stream|
    ensures Windows(c, stream, m + 1)
            == Window(c, Windows(c, stream, m), stream[m * WINDOW_BYTES..(m + 1) * WINDOW_BYTES], Voiced(c, stream, m))
  {
  }

  lemma NothingTells(c: Config, stream: Bytes)
    ensures Tells(c, stream, Initial, 0)
  {
    assert Closed(c, stream, Nothing, 0) && Still(c, stream, 0, 0);
  }

  /** The flush ends what is still open. */
  lemma FlushFinishes(c: Config, stream: Bytes, s: State)
    requires |stream| % 2 == 0 && Tells(c, stream, s, |stream| / WINDOW_BYTES)
    ensures Finished(c, stream, Flushed(c, s, stream[|stream| / WINDOW_BYTES * WINDOW_BYTES..]).trace)
  {
    var n := |stream| / WINDOW_BYTES;
    if s.active {
      var a: nat :| Speaks(c, stream, s, a, n);
      assert s.audio + stream[n * WINDOW_BYTES..] == stream[a * WINDOW_BYTES..];
      assert s.processed + |stream[n * WINDOW_BYTES..]| / 2 == |stream| / 2;
    }
  }

  // ── From the client's bytes to the 16 kHz stream ────────────────────────────────────

  /** The whole chunks of what the client sent, each resampled on its own. */
  function Resampled(c: Config, received: Bytes): Bytes
    requires c.chunkBytes > 0
  {
    if |received| < c.chunkBytes then []
    else c.resample(received[..c.chunkBytes]) + Resampled(c, received[c.chunkBytes..])
  }

  /** What is left of it. */
  function Rest(c: Config, received: Bytes): Bytes
    requires c.chunkBytes > 0
  {
    if |received| < c.chunkBytes then received else Rest(c, received[c.chunkBytes..])
  }

  lemma {:induction false} ResampledMore(c: Config, received: Bytes, more: Bytes)
    requires c.chunkBytes > 0
    ensures Resampled(c, received + more) == Resampled(c, received) + Resampled(c, Rest(c, received) + more)
    ensures Rest(c, received + more) == Rest(c, Rest(c, received) + more)
  {
    if |received| >= c.chunkBytes {
      var n := c.chunkBytes;
      assert (received + more)[..n] == received[..n] && (received + more)[n..] == received[n..] + more;
      ResampledMore(c, received[n..], more);
    }
  }

  /** The windows of the stream so far are processed, the rest of it is kept. */
  ghost predicate Heard(c: Config, stream: Bytes, vadBuffer: Bytes, fed: Bytes, s: State) {
    var n := |stream| / WINDOW_BYTES;
    && |stream| % 2 == 0
    && fed == stream[..n * WINDOW_BYTES] && vadBuffer == stream[n * WINDOW_BYTES..]
    && s == Windows(c, stream, n)
  }

  /** `n` windows of the stream are processed. */
  ghost predicate Hearing(c: Config, stream: Bytes, n: nat, fed: Bytes, s: State) {
    && n * WINDOW_BYTES <= |stream|
    && fed == stream[..n * WINDOW_BYTES]
    && s == Windows(c, stream, n)
  }

  /** `pcm` is the stream from window `first` on. */
  ghost predicate Unheard(stream: Bytes, pcm: Bytes, first: nat) {
    && first * WINDOW_BYTES <= |stream| && pcm == stream[first * WINDOW_BYTES..]
    && |stream| / WINDOW_BYTES == first + |pcm| / WINDOW_BYTES
  }

  lemma HearingStarts(c: Config, stream: Bytes, vadBuffer: Bytes, fed: Bytes, s: State, more: Bytes) returns (first: nat)
    requires Heard(c, stream, vadBuffer, fed, s) && |more| % 2 == 0
    ensures Hearing(c, stream + more, first, fed, s) && Unheard(stream + more, vadBuffer + more, first)
    ensures |stream + more| % 2 == 0
  {
    first := |stream| / WINDOW_BYTES;
    EvenSum(|stream|, |more|);
    HearingLonger(c, stream, first, fed, s, more);
    UnheardLonger(stream, vadBuffer, first, more);
  }

  lemma HearingLonger(c: Config, stream: Bytes, n: nat, fed: Bytes, s: State, more: Bytes)
    requires Hearing(c, stream, n, fed, s)
    ensures Hearing(c, stream + more, n, fed, s)
  {
    WindowsOfPrefix(c, stream, more, n);
    DropAppend(stream, more, n * WINDOW_BYTES);
  }

  lemma UnheardLonger(stream: Bytes, pcm: Bytes, first: nat, more: Bytes)
    requires Unheard(stream, pcm, first)
    ensures Unheard(stream + more, pcm + more, first)
  {
    DropAppend(stream, more, first * WINDOW_BYTES);
    WholeWindows(|stream| + |more|, first);
  }

  lemma EvenSum(a: nat, b: nat)
    requires a % 2 == 0 && b % 2 == 0
    ensures (a + b) % 2 == 0
  {
  }

  lemma WholeWindows(length: nat, first: nat)
    requires first * WINDOW_BYTES <= length
    ensures length / WINDOW_BYTES == first + (length - first * WINDOW_BYTES) / WINDOW_BYTES
  {
  }

  lemma HearingStep(c: Config, stream: Bytes, n: nat, fed: Bytes, s: State, rest: Bytes, first: nat, j: nat)
    requires Hearing(c, stream, n, fed, s) && (n + 1) * WINDOW_BYTES <= |stream|
    requires n == first + j && rest == stream[first * WINDOW_BYTES..]
    ensures var window := rest[j * WINDOW_BYTES..(j + 1) * WINDOW_BYTES];
            Hearing(c, stream, n + 1, fed + window, Window(c, s, window, c.heard(fed + window)))
  {
    var window := rest[j * WINDOW_BYTES..(j + 1) * WINDOW_BYTES];
    assert window == stream[n * WINDOW_BYTES..(n + 1) * WINDOW_BYTES];
    assert fed + window == stream[..(n + 1) * WINDOW_BYTES];
  }

  lemma HearingEnds(c: Config, stream: Bytes, first: nat, windows: nat, fed: Bytes, s: State, rest: Bytes)
    requires first + windows == |stream| / WINDOW_BYTES && Hearing(c, stream, first + windows, fed, s) && |stream| % 2 == 0
    requires rest == stream[first * WINDOW_BYTES..]
    ensures windows * WINDOW_BYTES <= |rest| && Heard(c, stream, rest[windows * WINDOW_BYTES..], fed, s)
  {
  }

  class StreamingSession {
    const config: Config

    var audioBuffer: Bytes
    var vadBuffer: Bytes
    var processed: nat
    var speechActive: bool
    var utteranceStart: nat
    var utteranceAudio: Bytes
    var silenceSamples: nat
    var trace: Trace           // the events sent
    var fed: Bytes             // the detector's memory

    ghost var received: Bytes  // what the client sent, odd bytes dropped
    ghost var stream: Bytes    // that at 16 kHz

    ghost function View(): State
      reads this
    {
      State(processed, speechActive, utteranceStart, utteranceAudio, silenceSamples, trace)
    }

    ghost predicate Listening()
      reads this
    {
      Lawful(config) && Heard(config, stream, vadBuffer, fed, View())
    }

    ghost predicate Valid()
      reads this
    {
      && Listening() && |received| % 2 == 0
      && audioBuffer == Rest(config, received) && stream == Resampled(config, received)
    }

    constructor (config: Config)
      requires Lawful(config)
      ensures Valid() && this.config == config && received == []
    {
      this.config := config;
      audioBuffer, vadBuffer, fed, received, stream := [], [], [], [], [];
      processed, speechActive, utteranceStart, utteranceAudio, silenceSamples, trace := 0, false, 0, [], 0, Nothing;
    }

    /** A binary frame from the client. */
    method HandleAudio(data: Bytes)
      requires Valid()
      modifies this
      ensures Valid() && received == old(received) + data[..|data| / 2 * 2]
    {
      var even := data[..|data| / 2 * 2];
      ResampledMore(config, received, even);
      audioBuffer := audioBuffer + even;
      received := received + even;
      while |audioBuffer| >= config.chunkBytes
        invariant Listening() && received == old(received) + even
        invariant stream + Resampled(config, audioBuffer) == Resampled(config, received)
        invariant Rest(config, audioBuffer) == Rest(config, received)
        decreases |audioBuffer|
      {
        var chunk := audioBuffer[..config.chunkBytes];
        ghost var rest := Resampled(config, audioBuffer[config.chunkBytes..]);
        assert stream + (config.resample(chunk) + rest) == (stream + config.resample(chunk)) + rest;
        audioBuffer := audioBuffer[config.chunkBytes..];
        ProcessChunk(chunk);
      }
      assert stream + [] == stream;
    }

    method ProcessChunk(chunk: Bytes)
      requires Listening()
      modifies this`processed, this`fed, this`speechActive, this`utteranceStart, this`utteranceAudio, this`silenceSamples,
               this`trace, this`vadBuffer, this`stream
      ensures Listening() && stream == old(stream) + config.resample(chunk)
    {
      var chunk16k := config.resample(chunk);
      ghost var first := HearingStarts(config, stream, vadBuffer, fed, View(), chunk16k);
      stream := stream + chunk16k;
      HearPcm(vadBuffer + chunk16k, first);
    }

    /** The complete windows are heard, the rest is kept. */
    method HearPcm(pcm: Bytes, ghost first: nat)
      requires Hearing(config, stream, first, fed, View()) && Unheard(stream, pcm, first) && |stream| % 2 == 0
      modifies this`processed, this`fed, this`speechActive, this`utteranceStart, this`utteranceAudio, this`silenceSamples,
               this`trace, this`vadBuffer
      ensures Heard(config, stream, vadBuffer, fed, View())
    {
      var windows := |pcm| / WINDOW_BYTES;
      HearWindows(pcm, windows, first);
      HearingEnds(config, stream, first, windows, fed, View(), pcm);
      vadBuffer := pcm[windows * WINDOW_BYTES..];
    }

    method HearWindows(pcm: Bytes, windows: nat, ghost first: nat)
      requires Hearing(config, stream, first, fed, View()) && (first + windows) * WINDOW_BYTES <= |stream|
      requires pcm == stream[first * WINDOW_BYTES..]
      modifies this`processed, this`fed, this`speechActive, this`utteranceStart, this`utteranceAudio,
          this`silenceSamples, this`trace
      ensures Hearing(config, stream, first + windows, fed, View())
    {
      for j := 0 to windows
        invariant Hearing(config, stream, first + j, fed, View())
      {
        HearingStep(config, stream, first + j, fed, View(), pcm, first, j);
        HearWindow(pcm[j * WINDOW_BYTES..(j + 1) * WINDOW_BYTES]);
      }
    }

    /** The body of the loop over the windows of a chunk. */
    method HearWindow(window: Bytes)
      modifies this`processed, this`fed, this`speechActive, this`utteranceStart, this`utteranceAudio,
          this`silenceSamples, this`trace
      ensures fed == old(fed) + window && View() == Window(config, old(View()), window, config.heard(fed))
    {
      var windowStart := processed;
      processed := processed + WINDOW_SAMPLES;
      fed := fed + window;
      if config.heard(fed) {
        silenceSamples := 0;
        if !speechActive {
          speechActive := true;
          utteranceStart := windowStart;
          utteranceAudio := [];
          trace := Then(trace, SpeechStart(windowStart));
        }
        utteranceAudio := utteranceAudio + window;
        if |utteranceAudio| >= MAX_UTTERANCE_BYTES {
          FinalizeUtterance(processed);
        }
      } else if speechActive {
        silenceSamples := silenceSamples + WINDOW_SAMPLES;
        utteranceAudio := utteranceAudio + window;
        if |utteranceAudio| >= MAX_UTTERANCE_BYTES {
          FinalizeUtterance(processed);
        } else if silenceSamples >= config.endpointingSamples {
          FinalizeUtterance(processed);
        }
      }
    }

    method FinalizeUtterance(endTime: nat)
      modifies this`speechActive, this`utteranceAudio, this`silenceSamples, this`trace
      ensures View() == Finalize(config, old(View()), endTime)
      ensures !speechActive && utteranceAudio == [] && silenceSamples == 0
      ensures old(speechActive) && old(Alternates(trace, true)) ==> Alternates(trace, false)
      ensures old(speechActive) ==>
                trace == if |old(utteranceAudio)| >= MIN_UTTERANCE_BYTES && config.backend(utteranceStart) == Words
                         then Then(Then(old(trace), Final(utteranceStart, endTime, old(utteranceAudio))), SpeechEnd(endTime))
                         else Then(old(trace), SpeechEnd(endTime))
    {
      if |utteranceAudio| < MIN_UTTERANCE_BYTES {
        var wasActive := speechActive;
        ResetUtterance();
        if wasActive {
          trace := Then(trace, SpeechEnd(endTime));
        }
        return;
      }
      match config.backend(utteranceStart) {
        case Failed =>
          ResetUtterance();
          trace := Then(trace, SpeechEnd(endTime));
        case Blank =>
          trace := Then(trace, SpeechEnd(endTime));
          ResetUtterance();
        case Words =>
          trace := Then(trace, Final(utteranceStart, endTime, utteranceAudio));
          trace := Then(trace, SpeechEnd(endTime));
          ResetUtterance();
      }
    }

    method ResetUtterance()
      modifies this`speechActive, this`silenceSamples, this`utteranceAudio
      ensures View() == Reset(old(View()))
    {
      speechActive := false;
      silenceSamples := 0;
      utteranceAudio := [];
    }

    /** The end of the connection. */
    method Flush()
      requires Valid()
      modifies this
      ensures stream == Complete(config, received) && received == old(received)
      ensures View() == Outcomes(config, stream)
      ensures Sound(View(), stream) && Alternates(trace, false) && !speechActive
      ensures Finished(config, stream, trace)
    {
      if audioBuffer != [] {
        var remaining := audioBuffer;
        audioBuffer := [];
        ProcessChunk(remaining);
      } else {
        assert stream + [] == stream;
      }
      CloseUtterance();
    }

    method CloseUtterance()
      requires Listening()
      modifies this`vadBuffer, this`processed, this`utteranceAudio, this`speechActive, this`silenceSamples, this`trace
      ensures View() == Outcomes(config, stream)
      ensures Sound(View(), stream) && Alternates(trace, false) && !speechActive
      ensures Finished(config, stream, trace)
    {
      OutcomesSound(config, stream);
      OutcomesFinished(config, stream);
      if vadBuffer != [] {
        var tailSamples := |vadBuffer| / 2;
        if speechActive {
          utteranceAudio := utteranceAudio + vadBuffer;
        }
        vadBuffer := [];
        processed := processed + tailSamples;
      }
      if speechActive && utteranceAudio != [] {
        FinalizeUtterance(processed);
      }
    }
  }

  /** The 16 kHz stream of a whole session: its chunks, the last one as short as it is. */
  function Complete(c: Config, received: Bytes): Bytes
    requires c.chunkBytes > 0
  {
    Resampled(c, received) + if Rest(c, received) == [] then [] else c.resample(Rest(c, received))
  }

  /** The whole session as a function of its 16 kHz stream. */
  function Outcomes(c: Config, stream: Bytes): State {
    var n := |stream| / WINDOW_BYTES;
    Flushed(c, Windows(c, stream, n), stream[n * WINDOW_BYTES..])
  }

  lemma OutcomesSound(c: Config, stream: Bytes)
    requires |stream| % 2 == 0
    ensures Sound(Outcomes(c, stream), stream) && !Outcomes(c, stream).active
  {
    WindowsSound(c, stream, |stream| / WINDOW_BYTES);
    FlushBalances(c, Windows(c, stream, |stream| / WINDOW_BYTES), stream);
  }

  lemma OutcomesFinished(c: Config, stream: Bytes)
    requires |stream| % 2 == 0
    ensures Finished(c, stream, Outcomes(c, stream).trace)
  {
    WindowsTell(c, stream, |stream| / WINDOW_BYTES);
    FlushFinishes(c, stream, Windows(c, stream, |stream| / WINDOW_BYTES));
  }

  method HandleAll(session: StreamingSession, frames: seq<Bytes>)
    requires session.Valid() && session.received == [] && forall i :: 0 <= i < |frames| ==> |frames[i]| % 2 == 0
    modifies session
    ensures session.Valid() && session.received == Joined(frames)
  {
    for i := 0 to |frames|
      invariant session.Valid() && session.received == Joined(frames[..i])
    {
      assert frames[..i + 1][..i] == frames[..i];
      assert frames[i][..|frames[i]| / 2 * 2] == frames[i];
      session.HandleAudio(frames[i]);
    }
    assert frames[..|frames|] == frames;
  }

  /** However the client cuts its audio into even-length frames, the events are those of the whole, and
      they are the utterances its windows tell. */
  method Run(config: Config, frames: seq<Bytes>) returns (trace: Trace)
    requires Lawful(config) && forall i :: 0 <= i < |frames| ==> |frames[i]| % 2 == 0
    ensures trace == Outcomes(config, Complete(config, Joined(frames))).trace
    ensures Alternates(trace, false) && Exact(trace, Complete(config, Joined(frames)))
    ensures Finished(config, Complete(config, Joined(frames)), trace)
  {
    var session := new StreamingSession(config);
    HandleAll(session, frames);
    session.Flush();
    trace := session.trace;
  }
}
