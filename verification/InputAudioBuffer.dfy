/** `InputAudioBuffer` and the commit loop of the realtime handler: for every way a
    client cuts its audio into frames, speech events and committed utterances are the same. */
module InputAudioBuffer {
  import opened Text

  type Bytes = seq<bv8>

  const WINDOW_SAMPLES: nat := 512
  const WINDOW_BYTES: nat := 1024
  const SAMPLE_RATE: nat := 16000

  /** `heard` is the detector: given all audio it was ever fed, is the last window speech? */
  datatype Config = Config(vad: bool, heard: Bytes -> bool, silenceMs: int, maxBytes: nat)

  datatype Event = SpeechStarted(audioStartMs: nat) | SpeechStopped(audioEndMs: nat, end: int)

  datatype Vad = Vad(fed: Bytes, inSpeech: bool, silenceSamples: nat)

  datatype Heard = Heard(vad: Vad, events: seq<Event>)

  function Milliseconds(samples: nat): nat { samples * 1000 / SAMPLE_RATE }

  // ── One window at a time over the whole stream ──────────────────────────────────────

  /** One window that starts at sample `start` and ends at byte `end` of the stream. */
  function Window(c: Config, v: Vad, window: Bytes, start: nat, end: int): Heard {
    var fed := v.fed + window;
    if c.heard(fed) then
      Heard(Vad(fed, true, 0), if v.inSpeech then [] else [SpeechStarted(Milliseconds(start))])
    else if !v.inSpeech then Heard(Vad(fed, false, v.silenceSamples), [])
    else
      var silence := v.silenceSamples + WINDOW_SAMPLES;
      if Milliseconds(silence) >= c.silenceMs then
        Heard(Vad(fed, false, 0), [SpeechStopped(Milliseconds(start + WINDOW_SAMPLES), end)])
      else Heard(Vad(fed, true, silence), [])
  }

  /** The first `n` windows of `stream`, whose first sample is sample `base` of the session. */
  function Windows(c: Config, from: Vad, stream: Bytes, base: nat, n: nat): Heard
    requires n * WINDOW_BYTES <= |stream|
  {
    if n == 0 then Heard(from, [])
    else
      var before := Windows(c, from, stream, base, n - 1);
      var last := Window(c, before.vad, stream[(n - 1) * WINDOW_BYTES..n * WINDOW_BYTES],
                         base + (n - 1) * WINDOW_SAMPLES, n * WINDOW_BYTES);
      Heard(last.vad, before.events + last.events)
  }

  lemma {:induction false} WindowsOfPrefix(c: Config, from: Vad, stream: Bytes, more: Bytes, base: nat, n: nat)
    requires n * WINDOW_BYTES <= |stream|
    ensures Windows(c, from, stream + more, base, n) == Windows(c, from, stream, base, n)
  {
    if n > 0 {
      WindowsOfPrefix(c, from, stream, more, base, n - 1);
      assert (stream + more)[(n - 1) * WINDOW_BYTES..n * WINDOW_BYTES] == stream[(n - 1) * WINDOW_BYTES..n * WINDOW_BYTES];
    }
  }

  // ── When speech starts and stops ────────────────────────────────────────────────────

  predicate Voiced(c: Config, from: Vad, stream: Bytes, i: nat) {
    (i + 1) * WINDOW_BYTES <= |stream| && c.heard(from.fed + stream[..(i + 1) * WINDOW_BYTES])
  }

  /** The unvoiced windows at the end of the first `n`. */
  function Quiet(c: Config, from: Vad, stream: Bytes, n: nat): (quiet: nat)
    ensures quiet <= n
  {
    if n == 0 || Voiced(c, from, stream, n - 1) then 0 else 1 + Quiet(c, from, stream, n - 1)
  }

  /** The silence after `n` windows; with no voiced one among them, it goes on from the start. */
  function Silence(c: Config, from: Vad, stream: Bytes, n: nat): nat {
    var quiet := Quiet(c, from, stream, n);
    quiet * WINDOW_SAMPLES + if quiet == n then from.silenceSamples else 0
  }

  /** There was a voiced window, or speech from the start on, and since the last one silence has not
      lasted for silenceMs. */
  predicate Talking(c: Config, from: Vad, stream: Bytes, n: nat) {
    var quiet := Quiet(c, from, stream, n);
    && (quiet < n || from.inSpeech)
    && (quiet == 0 || Milliseconds(Silence(c, from, stream, n)) < c.silenceMs)
  }

  /** Where talking begins or ends with a window. */
  function Edge(c: Config, from: Vad, stream: Bytes, base: nat, i: nat): seq<Event> {
    if Talking(c, from, stream, i) == Talking(c, from, stream, i + 1) then []
    else if Talking(c, from, stream, i + 1) then [SpeechStarted(Milliseconds(base + i * WINDOW_SAMPLES))]
    else [SpeechStopped(Milliseconds(base + (i + 1) * WINDOW_SAMPLES), (i + 1) * WINDOW_BYTES)]
  }

  function Edges(c: Config, from: Vad, stream: Bytes, base: nat, n: nat): seq<Event> {
    if n == 0 then [] else Edges(c, from, stream, base, n - 1) + Edge(c, from, stream, base, n - 1)
  }

  lemma LongerInTime(a: nat, b: nat)
    requires a <= b
    ensures Milliseconds(a) <= Milliseconds(b)
  {
  }

  /** The detector after `n` windows. */
  ghost predicate Follows(c: Config, from: Vad, stream: Bytes, n: nat, v: Vad) {
    && n * WINDOW_BYTES <= |stream| && v.fed == from.fed + stream[..n * WINDOW_BYTES]
    && v.inSpeech == Talking(c, from, stream, n)
    && (v.inSpeech ==> v.silenceSamples == Silence(c, from, stream, n))
  }

  lemma WindowFollows(c: Config, from: Vad, stream: Bytes, base: nat, m: nat, v: Vad)
    requires Follows(c, from, stream, m, v) && (m + 1) * WINDOW_BYTES <= |stream|
    ensures var after := Window(c, v, stream[m * WINDOW_BYTES..(m + 1) * WINDOW_BYTES], base + m * WINDOW_SAMPLES, (m + 1) * WINDOW_BYTES);
            Follows(c, from, stream, m + 1, after.vad) && after.events == Edge(c, from, stream, base, m)
  {
    assert v.fed + stream[m * WINDOW_BYTES..(m + 1) * WINDOW_BYTES] == from.fed + stream[..(m + 1) * WINDOW_BYTES];
    LongerInTime(Silence(c, from, stream, m), Silence(c, from, stream, m) + WINDOW_SAMPLES);
  }

  /** The events are exactly the edges of talking: speech starts with the first voiced window, and
      stops when an unbroken run of silent ones has lasted for silenceMs. */
  lemma {:induction false} WindowsAreEdges(c: Config, from: Vad, stream: Bytes, base: nat, n: nat)
    requires n * WINDOW_BYTES <= |stream| && (from.inSpeech ==> from.silenceSamples == 0)
    ensures Windows(c, from, stream, base, n).events == Edges(c, from, stream, base, n)
    ensures Follows(c, from, stream, n, Windows(c, from, stream, base, n).vad)
  {
    if n > 0 {
      WindowsAreEdges(c, from, stream, base, n - 1);
      WindowFollows(c, from, stream, base, n - 1, Windows(c, from, stream, base, n - 1).vad);
    }
  }

  /** The end of the last utterance that the first `i` events commit. */
  function Boundary(events: seq<Event>, i: nat): int
    requires i <= |events|
  {
    if i == 0 then 0 else if events[i - 1].SpeechStopped? then events[i - 1].end else Boundary(events, i - 1)
  }

  /** The utterances that the first `i` events commit: each from the end of the one before it. */
  function Utterances(stream: Bytes, events: seq<Event>, i: nat): seq<Bytes>
    requires i <= |events|
  {
    if i == 0 then []
    else
      var before := Utterances(stream, events, i - 1);
      var from := Boundary(events, i - 1);
      if events[i - 1].SpeechStopped? && 0 <= from <= events[i - 1].end <= |stream| then
        before + [stream[from..events[i - 1].end]]
      else before
  }

  /** How often speech stops among the first `i` events. */
  function Stops(events: seq<Event>, i: nat): nat
    requires i <= |events|
  {
    if i == 0 then 0 else Stops(events, i - 1) + if events[i - 1].SpeechStopped? then 1 else 0
  }

  /** Every speech end commits one utterance: the audio from the speech end before it. */
  lemma {:induction false} UtteranceOfStop(stream: Bytes, events: seq<Event>, i: nat, n: nat)
    requires i < n <= |events| && events[i].SpeechStopped? && Ascending(events, |stream|)
    ensures |Utterances(stream, events, n)| == Stops(events, n) && Stops(events, i) < Stops(events, n)
    ensures 0 <= Boundary(events, i) <= events[i].end <= |stream|
    ensures Utterances(stream, events, n)[Stops(events, i)] == stream[Boundary(events, i)..events[i].end]
    ensures Boundary(events, i + 1) == events[i].end
  {
    UtterancesCounted(stream, events, n - 1);
    if i < n - 1 { UtteranceOfStop(stream, events, i, n - 1); }
  }

  lemma {:induction false} UtterancesCounted(stream: Bytes, events: seq<Event>, n: nat)
    requires n <= |events| && Ascending(events, |stream|)
    ensures |Utterances(stream, events, n)| == Stops(events, n)
  {
    if n > 0 { UtterancesCounted(stream, events, n - 1); }
  }

  /** The boundary stays where speech last stopped. */
  lemma {:induction false} BoundaryStays(events: seq<Event>, i: nat, n: nat)
    requires i <= n <= |events| && forall k :: i <= k < n ==> !events[k].SpeechStopped?
    ensures Boundary(events, n) == Boundary(events, i)
  {
    if i < n { BoundaryStays(events, i, n - 1); }
  }

  /** A speech event as the client sees it. */
  datatype Message = Started(ms: nat) | Stopped(ms: nat)

  function Published(events: seq<Event>, i: nat): seq<Message>
    requires i <= |events|
  {
    if i == 0 then [] else Published(events, i - 1) + [MessageOf(events[i - 1])]
  }

  lemma {:induction false} PublishedAll(events: seq<Event>, n: nat, k: nat)
    requires k < n <= |events|
    ensures |Published(events, n)| == n && Published(events, n)[k] == MessageOf(events[k])
    decreases n
  {
    if k < n - 1 {
      PublishedAll(events, n - 1, k);
    } else if n > 1 {
      PublishedAll(events, n - 1, 0);
    }
  }

  function MessageOf(e: Event): Message {
    match e
    case SpeechStarted(ms) => Started(ms)
    case SpeechStopped(ms, _) => Stopped(ms)
  }

  lemma {:induction false} PublishedOfPrefix(a: seq<Event>, b: seq<Event>, i: nat)
    requires i <= |a|
    ensures Published(a + b, i) == Published(a, i)
  {
    if i > 0 { PublishedOfPrefix(a, b, i - 1); }
  }

  /** Nothing is lost or committed twice: the utterances are the stream up to the last boundary. */
  lemma {:induction false} UtterancesAreThePrefix(stream: Bytes, events: seq<Event>, i: nat)
    requires i <= |events| && Ascending(events, |stream|)
    ensures 0 <= Boundary(events, i) <= |stream|
    ensures Joined(Utterances(stream, events, i)) == stream[..Boundary(events, i)]
  {
    if i > 0 {
      UtterancesAreThePrefix(stream, events, i - 1);
      if events[i - 1].SpeechStopped? {
        var before, from, end := Utterances(stream, events, i - 1), Boundary(events, i - 1), events[i - 1].end;
        assert (before + [stream[from..end]])[..|before|] == before;
        assert stream[..from] + stream[from..end] == stream[..end];
      }
    }
  }

  /** The utterance boundaries never move back and stay within `limit`. */
  ghost predicate Ascending(events: seq<Event>, limit: int) {
    && (forall i {:trigger Boundary(events, i)} :: 0 <= i < |events| && events[i].SpeechStopped? ==>
          0 <= Boundary(events, i) <= events[i].end <= limit)
    && 0 <= Boundary(events, |events|) <= limit
  }

  lemma {:induction false} BoundaryOfPrefix(a: seq<Event>, b: seq<Event>, i: nat)
    requires i <= |a|
    ensures Boundary(a + b, i) == Boundary(a, i)
  {
    if i > 0 { BoundaryOfPrefix(a, b, i - 1); }
  }

  lemma {:induction false} UtterancesOfPrefix(stream: Bytes, more: Bytes, a: seq<Event>, b: seq<Event>, i: nat)
    requires i <= |a| && Ascending(a, |stream|)
    ensures Utterances(stream + more, a + b, i) == Utterances(stream, a, i)
  {
    if i > 0 {
      UtterancesOfPrefix(stream, more, a, b, i - 1);
      BoundaryOfPrefix(a, b, i - 1);
      if a[i - 1].SpeechStopped? {
        assert (stream + more)[Boundary(a, i - 1)..a[i - 1].end] == stream[Boundary(a, i - 1)..a[i - 1].end];
      }
    }
  }

  lemma {:induction false} WindowsAscend(c: Config, from: Vad, stream: Bytes, base: nat, n: nat)
    requires n * WINDOW_BYTES <= |stream|
    ensures Ascending(Windows(c, from, stream, base, n).events, n * WINDOW_BYTES)
  {
    if n > 0 {
      WindowsAscend(c, from, stream, base, n - 1);
      var before := Windows(c, from, stream, base, n - 1);
      var last := Window(c, before.vad, stream[(n - 1) * WINDOW_BYTES..n * WINDOW_BYTES],
                         base + (n - 1) * WINDOW_SAMPLES, n * WINDOW_BYTES);
      AscendMore(before.events, last.events, (n - 1) * WINDOW_BYTES, n * WINDOW_BYTES);
    }
  }

  lemma AscendMore(events: seq<Event>, last: seq<Event>, before: int, limit: int)
    requires Ascending(events, before) && before <= limit && |last| <= 1
    requires last != [] && last[0].SpeechStopped? ==> last[0].end == limit
    ensures Ascending(events + last, limit)
  {
    var all := events + last;
    forall i | 0 <= i < |all| && all[i].SpeechStopped?
      ensures 0 <= Boundary(all, i) <= all[i].end <= limit
    {
      BoundaryOfPrefix(events, last, if i < |events| then i else |events|);
    }
    BoundaryOfPrefix(events, last, |events|);
  }

  /** The same events with ends counted from another place. */
  ghost predicate Shifted(a: seq<Event>, b: seq<Event>, d: int) {
    |a| == |b| && forall i {:trigger a[i]} {:trigger b[i]} :: 0 <= i < |a| ==> a[i] == ShiftedEvent(b[i], d)
  }

  function ShiftedEvent(e: Event, d: int): Event {
    if e.SpeechStopped? then e.(end := e.end - d) else e
  }

  // ── The buffer ──────────────────────────────────────────────────────────────────────

  /** All audio since the buffer was last cleared: `stream`, of which the first `taken` bytes are
      committed. `from` and `base` are the detector and the sample count when it was cleared. */
  datatype Epoch = Epoch(stream: Bytes, taken: nat, from: Vad, base: nat)

  function Full(e: Epoch): nat { |e.stream| / WINDOW_BYTES }

  function Result(c: Config, e: Epoch): Heard {
    if c.vad then Windows(c, e.from, e.stream, e.base, Full(e)) else Heard(e.from, [])
  }

  ghost predicate Sound(c: Config, e: Epoch, buffer: Bytes, vadBuffer: Bytes, total: nat, vad: Vad) {
    && e.taken <= |e.stream| && |e.stream| % 2 == 0
    && buffer == e.stream[e.taken..]
    && vadBuffer == (if c.vad then e.stream[Full(e) * WINDOW_BYTES..] else [])
    && total == e.base + |e.stream| / 2
    && vad == Result(c, e).vad
  }

  /** A window of the unheard rest is a window of the stream. */
  lemma WindowOfRest(stream: Bytes, rest: Bytes, full: nat, j: nat)
    requires (full + j + 1) * WINDOW_BYTES <= |stream| && rest == stream[full * WINDOW_BYTES..]
    ensures rest[j * WINDOW_BYTES..(j + 1) * WINDOW_BYTES]
            == stream[(full + j) * WINDOW_BYTES..(full + j + 1) * WINDOW_BYTES]
  {
  }

  lemma LeftOver(e: Epoch, frame: Bytes)
    ensures var all := e.stream + frame;
            var rest := all[Full(e) * WINDOW_BYTES..];
            && rest == e.stream[Full(e) * WINDOW_BYTES..] + frame
            && Full(e.(stream := all)) == Full(e) + |rest| / WINDOW_BYTES
            && rest[|rest| / WINDOW_BYTES * WINDOW_BYTES..] == all[Full(e.(stream := all)) * WINDOW_BYTES..]
  {
    DropAppend(e.stream, frame, Full(e) * WINDOW_BYTES);
  }

  lemma ShiftedMore(a: seq<Event>, b: seq<Event>, more: seq<Event>, d: int, shifted: seq<Event>)
    requires Shifted(a, b, d) && Shifted(shifted, more, d)
    ensures Shifted(a + shifted, b + more, d)
  {
  }

  /** After `n` windows of `stream` the detector is `vad`, and `events` are those of the windows
      since `skip`, counted from `d`. */
  ghost predicate Listened(c: Config, from: Vad, stream: Bytes, base: nat, n: nat, skip: seq<Event>, d: int, vad: Vad,
                           events: seq<Event>)
  {
    && n * WINDOW_BYTES <= |stream|
    && var now := Windows(c, from, stream, base, n);
       now.vad == vad && skip <= now.events && Shifted(events, now.events[|skip|..], d)
  }

  lemma ListenStep(c: Config, from: Vad, stream: Bytes, base: nat, n: nat, skip: seq<Event>, d: int, vad: Vad,
                   events: seq<Event>, window: Bytes, start: nat, end: int)
    requires Listened(c, from, stream, base, n, skip, d, vad, events) && (n + 1) * WINDOW_BYTES <= |stream|
    requires start == base + n * WINDOW_SAMPLES && end == (n + 1) * WINDOW_BYTES - d
    requires window == stream[n * WINDOW_BYTES..(n + 1) * WINDOW_BYTES]
    ensures var heard := Window(c, vad, window, start, end);
            Listened(c, from, stream, base, n + 1, skip, d, heard.vad, events + heard.events)
  {
    var now := Windows(c, from, stream, base, n);
    var absolute := Window(c, vad, window, base + n * WINDOW_SAMPLES, (n + 1) * WINDOW_BYTES);
    var relative := Window(c, vad, window, start, end);
    DropAppend(now.events, absolute.events, |skip|);
    ShiftedMore(events, now.events[|skip|..], absolute.events, d, relative.events);
  }

  /** A new frame, before its windows are heard. */
  lemma FrameArrives(c: Config, e: Epoch, buffer: Bytes, vadBuffer: Bytes, total: nat, vad: Vad, frame: Bytes)
    requires Sound(c, e, buffer, vadBuffer, total, vad) && c.vad && |frame| % 2 == 0
    ensures var all := e.stream + frame;
            && vadBuffer + frame == all[Full(e) * WINDOW_BYTES..]
            && Listened(c, e.from, all, e.base, Full(e), Result(c, e).events, e.taken, vad, [])
            && total - |vadBuffer| / 2 == e.base + Full(e) * WINDOW_SAMPLES
            && |buffer| - |vadBuffer| == Full(e) * WINDOW_BYTES - e.taken
            && Full(e.(stream := all)) == Full(e) + |vadBuffer + frame| / WINDOW_BYTES
  {
    LeftOver(e, frame);
    WindowsOfPrefix(c, e.from, e.stream, frame, e.base, Full(e));
  }

  /** And when they have been. */
  lemma FrameHeard(c: Config, e: Epoch, buffer: Bytes, vadBuffer: Bytes, total: nat, frame: Bytes, windows: nat,
      vad: Vad, events: seq<Event>)
    requires e.taken <= |e.stream| && |e.stream| % 2 == 0 && |frame| % 2 == 0 && c.vad
    requires buffer == e.stream[e.taken..] && vadBuffer == e.stream[Full(e) * WINDOW_BYTES..]
    requires total == e.base + |e.stream| / 2 && windows == |vadBuffer + frame| / WINDOW_BYTES
    requires Listened(c, e.from, e.stream + frame, e.base, Full(e) + windows, Result(c, e).events, e.taken, vad, events)
    ensures var now := e.(stream := e.stream + frame);
            && Sound(c, now, buffer + frame, (vadBuffer + frame)[windows * WINDOW_BYTES..], total + |frame| / 2, vad)
            && Result(c, e).events <= Result(c, now).events
            && Shifted(events, Result(c, now).events[|Result(c, e).events|..], e.taken)
  {
    LeftOver(e, frame);
    DropAppend(e.stream, frame, e.taken);
  }

  lemma FrameUnheard(c: Config, e: Epoch, buffer: Bytes, vadBuffer: Bytes, total: nat, vad: Vad, frame: Bytes)
    requires Sound(c, e, buffer, vadBuffer, total, vad) && !c.vad && |frame| % 2 == 0
    ensures Sound(c, e.(stream := e.stream + frame), buffer + frame, vadBuffer, total + |frame| / 2, vad)
  {
    DropAppend(e.stream, frame, e.taken);
  }

  class InputAudioBuffer {
    const config: Config

    var buffer: Bytes
    var vadBuffer: Bytes
    var inSpeech: bool
    var silenceSamples: nat
    var speechStartMs: nat
    var totalSamples: nat

    var fed: Bytes            // the memory of the detector: all it was fed
    ghost var epoch: Epoch

    ghost predicate Valid()
      reads this
    {
      Sound(config, epoch, buffer, vadBuffer, totalSamples, Vad(fed, inSpeech, silenceSamples))
    }

    constructor (config: Config)
      ensures Valid() && this.config == config
      ensures epoch == Epoch([], 0, Vad([], false, 0), 0)
    {
      this.config := config;
      buffer, vadBuffer := [], [];
      inSpeech, silenceSamples, speechStartMs, totalSamples := false, 0, 0, 0;
      fed, epoch := [], Epoch([], 0, Vad([], false, 0), 0);
    }

    method Clear()
      modifies this`buffer, this`vadBuffer, this`silenceSamples, this`epoch
      ensures buffer == []
      ensures epoch == Epoch([], 0, Vad(fed, inSpeech, 0), totalSamples) && Valid()
    {
      buffer := [];
      vadBuffer := [];
      silenceSamples := 0;
      epoch := Epoch([], 0, Vad(fed, inSpeech, 0), totalSamples);
    }

    method Append(frame: Bytes) returns (ok: bool, events: seq<Event>)
      requires Valid() && |frame| % 2 == 0
      modifies this
      ensures Valid()
      ensures ok <==> |frame| <= config.maxBytes && |old(buffer)| + |frame| <= config.maxBytes
      ensures ok ==> epoch == old(epoch).(stream := old(epoch).stream + frame)
      ensures ok ==>
        var before, after := Result(config, old(epoch)).events, Result(config, epoch).events;
        before <= after && Shifted(events, after[|before|..], epoch.taken)
      ensures !ok ==> events == [] &&
                      if |frame| > config.maxBytes then buffer == [] else epoch == old(epoch) && buffer == old(buffer)
    {
      events := [];
      if |frame| > config.maxBytes {
        Clear();
        return false, [];
      }
      if |buffer| + |frame| > config.maxBytes {
        return false, [];
      }
      ok := true;
      if !config.vad {
        FrameUnheard(config, epoch, buffer, vadBuffer, totalSamples, Vad(fed, inSpeech, silenceSamples), frame);
        buffer := buffer + frame;
        totalSamples := totalSamples + |frame| / 2;
        epoch := epoch.(stream := epoch.stream + frame);
        return;
      }
      FrameArrives(config, epoch, buffer, vadBuffer, totalSamples, Vad(fed, inSpeech, silenceSamples), frame);
      var pendingBytes := |vadBuffer|;
      var pcm := vadBuffer + frame;
      var windows := |pcm| / WINDOW_BYTES;
      events := Listen(pcm, windows, totalSamples - pendingBytes / 2, |buffer| - pendingBytes,
                       epoch, epoch.stream + frame);
      FrameHeard(config, epoch, buffer, vadBuffer, totalSamples, frame, windows, Vad(fed, inSpeech, silenceSamples), events);
      buffer := buffer + frame;
      totalSamples := totalSamples + |frame| / 2;
      vadBuffer := pcm[windows * WINDOW_BYTES..];
      epoch := epoch.(stream := epoch.stream + frame);
    }

    /** The source's loop over the windows that are now complete. */
    method Listen(pcm: Bytes, windows: nat, firstSample: nat, firstOffset: int, ghost e: Epoch, ghost all: Bytes)
      returns (events: seq<Event>)
      requires (Full(e) + windows) * WINDOW_BYTES <= |all| && pcm == all[Full(e) * WINDOW_BYTES..]
      requires firstSample == e.base + Full(e) * WINDOW_SAMPLES && firstOffset == Full(e) * WINDOW_BYTES - e.taken
      requires Listened(config, e.from, all, e.base, Full(e), Result(config, e).events, e.taken,
                        Vad(fed, inSpeech, silenceSamples), [])
      modifies this`inSpeech, this`silenceSamples, this`speechStartMs, this`fed
      ensures Listened(config, e.from, all, e.base, Full(e) + windows, Result(config, e).events, e.taken,
                       Vad(fed, inSpeech, silenceSamples), events)
    {
      events := [];
      ghost var before, full := Result(config, e).events, Full(e);
      for j := 0 to windows
        invariant Listened(config, e.from, all, e.base, full + j, before, e.taken,
                           Vad(fed, inSpeech, silenceSamples), events)
      {
        events := HearNext(pcm, j, firstSample, firstOffset, events, e, all, full, before);
      }
    }

    method HearNext(pcm: Bytes, j: nat, firstSample: nat, firstOffset: int, events: seq<Event>, ghost e: Epoch,
        ghost all: Bytes, ghost full: nat, ghost before: seq<Event>)
      returns (more: seq<Event>)
      requires (full + j + 1) * WINDOW_BYTES <= |all| && pcm == all[full * WINDOW_BYTES..]
      requires firstSample == e.base + full * WINDOW_SAMPLES && firstOffset == full * WINDOW_BYTES - e.taken
      requires Listened(config, e.from, all, e.base, full + j, before, e.taken, Vad(fed, inSpeech, silenceSamples), events)
      modifies this`inSpeech, this`silenceSamples, this`speechStartMs, this`fed
      ensures Listened(config, e.from, all, e.base, full + j + 1, before, e.taken, Vad(fed, inSpeech, silenceSamples), more)
    {
      var window := pcm[j * WINDOW_BYTES..(j + 1) * WINDOW_BYTES];
      var start, end := firstSample + j * WINDOW_SAMPLES, firstOffset + (j + 1) * WINDOW_BYTES;
      WindowOfRest(all, pcm, full, j);
      ListenStep(config, e.from, all, e.base, full + j, before, e.taken, Vad(fed, inSpeech, silenceSamples), events,
                 window, start, end);
      more := Hear(window, start, end);
      more := events + more;
    }

    /** The body of the source's loop over the windows. */
    method Hear(window: Bytes, start: nat, end: int) returns (events: seq<Event>)
      modifies this`inSpeech, this`silenceSamples, this`speechStartMs, this`fed
      ensures Heard(Vad(fed, inSpeech, silenceSamples), events)
              == Window(config, Vad(old(fed), old(inSpeech), old(silenceSamples)), window, start, end)
    {
      events := [];
      fed := fed + window;
      if config.heard(fed) {
        silenceSamples := 0;
        if !inSpeech {
          inSpeech := true;
          speechStartMs := Milliseconds(start);
          events := [SpeechStarted(Milliseconds(start))];
        }
      } else if inSpeech {
        silenceSamples := silenceSamples + WINDOW_SAMPLES;
        if Milliseconds(silenceSamples) >= config.silenceMs {
          inSpeech := false;
          silenceSamples := 0;
          events := [SpeechStopped(Milliseconds(start + WINDOW_SAMPLES), end)];
        }
      }
    }

    method Commit() returns (data: Bytes)
      requires Valid()
      modifies this`buffer, this`vadBuffer, this`silenceSamples, this`epoch
      ensures data == old(epoch).stream[old(epoch).taken..]
      ensures epoch == Epoch([], 0, Vad(fed, inSpeech, 0), totalSamples) && Valid()
    {
      data := buffer;
      Clear();
    }

    method CommitThrough(count: int) returns (ok: bool, data: Bytes)
      requires Valid()
      modifies this`buffer, this`epoch
      ensures Valid() && (ok <==> 0 <= count <= |old(buffer)|)
      ensures if ok then epoch == old(epoch).(taken := old(epoch).taken + count) &&
                         data == old(epoch).stream[old(epoch).taken..old(epoch).taken + count]
              else epoch == old(epoch) && data == []
    {
      if count < 0 || count > |buffer| {
        return false, [];
      }
      ok, data := true, buffer[..count];
      DropMore(epoch.stream, epoch.taken, count);
      buffer := buffer[count..];
      epoch := epoch.(taken := epoch.taken + count);
    }
  }

  lemma DropMore<T>(s: seq<T>, a: nat, b: nat)
    requires a + b <= |s|
    ensures s[a..][b..] == s[a + b..] && s[a..][..b] == s[a..a + b]
  {
  }

  // ── The handler's commit loop ───────────────────────────────────────────────────────

  /** Everything heard up to the last speech end is committed, utterance by utterance. */
  ghost predicate Committed(c: Config, e: Epoch, sent: seq<Message>, utterances: seq<Bytes>, i: nat) {
    var events := Result(c, e).events;
    && i <= |events|
    && e.taken == Boundary(events, i)
    && sent == Published(events, i)
    && utterances == Utterances(e.stream, events, i)
  }

  /** The first `i` events of a frame are dealt with; the frame began when `taken` bytes were committed. */
  ghost predicate Committing(c: Config, e: Epoch, sent: seq<Message>, utterances: seq<Bytes>, n: nat, i: nat,
      events: seq<Event>, taken: int, committedFromFrame: int) {
    && Committed(c, e, sent, utterances, n + i)
    && Shifted(events, Result(c, e).events[n..], taken) && committedFromFrame == e.taken - taken
  }

  /** The handler between two client events: sent speech events and committed utterances are
      functions of the audio since the last clear. */
  class Handler {
    const buffer: InputAudioBuffer

    var sent: seq<Message>         // speech events sent since the buffer was cleared
    var utterances: seq<Bytes>     // audio handed to transcription since the buffer was cleared

    ghost predicate Valid()
      reads this, buffer
    {
      && buffer.Valid()
      && Committed(buffer.config, buffer.epoch, sent, utterances, |Result(buffer.config, buffer.epoch).events|)
    }

    constructor (config: Config)
      ensures Valid() && fresh(buffer) && buffer.config == config
      ensures buffer.epoch == Epoch([], 0, Vad([], false, 0), 0) && sent == [] && utterances == []
    {
      buffer := new InputAudioBuffer(config);
      sent, utterances := [], [];
    }

    /** `input_audio_buffer.append`. No commit is ever out of range. */
    method HandleAppend(pcm: Bytes) returns (ok: bool)
      requires Valid() && |pcm| % 2 == 0
      modifies this, buffer
      ensures Valid()
      ensures ok <==> |pcm| <= buffer.config.maxBytes && old(|buffer.buffer|) + |pcm| <= buffer.config.maxBytes
      ensures ok ==> buffer.epoch.stream == old(buffer.epoch.stream) + pcm
                     && buffer.epoch.from == old(buffer.epoch.from) && buffer.epoch.base == old(buffer.epoch.base)
      ensures !ok ==> buffer.epoch.stream == [] && utterances == []
    {
      ghost var before := buffer.epoch;
      var appended, events := buffer.Append(pcm);
      if !appended {
        buffer.Clear();
        sent, utterances := [], [];
        return false;
      }
      ok := true;
      FrameCommitted(buffer.config, before, pcm, sent, utterances);
      CommitUtterances(events, |Result(buffer.config, before).events|);
    }

    /** The source's loop over the events of one frame; `events` are those after the first `n`. */
    method CommitUtterances(events: seq<Event>, ghost n: nat)
      requires buffer.Valid() && Committed(buffer.config, buffer.epoch, sent, utterances, n)
      requires Shifted(events, Result(buffer.config, buffer.epoch).events[n..], buffer.epoch.taken)
      modifies this, buffer`buffer, buffer`epoch
      ensures Valid() && buffer.epoch == old(buffer.epoch).(taken := buffer.epoch.taken)
    {
      ghost var e, taken := buffer.epoch, buffer.epoch.taken;
      var committedFromFrame := 0;
      for i := 0 to |events|
        invariant buffer.Valid() && buffer.epoch == e.(taken := buffer.epoch.taken)
        invariant Committing(buffer.config, buffer.epoch, sent, utterances, n, i, events, taken, committedFromFrame)
      {
        committedFromFrame := HandleEvent(events[i], committedFromFrame, n, i, events, taken);
      }
    }

    method HandleEvent(event: Event, committedFromFrame: int, ghost n: nat, ghost i: nat, ghost events: seq<Event>,
        ghost taken: int)
      returns (committed: int)
      requires buffer.Valid() && i < |events| && event == events[i]
      requires Committing(buffer.config, buffer.epoch, sent, utterances, n, i, events, taken, committedFromFrame)
      modifies this, buffer`buffer, buffer`epoch
      ensures buffer.Valid() && buffer.epoch == old(buffer.epoch).(taken := buffer.epoch.taken)
      ensures Committing(buffer.config, buffer.epoch, sent, utterances, n, i + 1, events, taken, committed)
    {
      NextEvent(buffer.config, buffer.epoch, sent, utterances, n, i, events, taken);
      sent := sent + [MessageOf(event)];
      committed := committedFromFrame;
      if event.SpeechStopped? {
        CommitUtterance(event.end - committedFromFrame, n, i);
        committed := event.end;
      }
    }

    method CommitUtterance(commitBytes: int, ghost n: nat, ghost i: nat)
      requires buffer.Valid() && 0 <= commitBytes <= |buffer.epoch.stream| - buffer.epoch.taken
      requires var e := buffer.epoch;
               Committed(buffer.config, e.(taken := e.taken + commitBytes), sent,
                         utterances + [e.stream[e.taken..e.taken + commitBytes]], n + i + 1)
      modifies this`utterances, buffer`buffer, buffer`epoch
      ensures buffer.Valid() && Committed(buffer.config, buffer.epoch, sent, utterances, n + i + 1)
      ensures buffer.epoch == old(buffer.epoch).(taken := old(buffer.epoch.taken) + commitBytes)
    {
      var inRange, audio := buffer.CommitThrough(commitBytes);
      assert inRange;
      utterances := utterances + [audio];
    }
  }

  lemma ResultAscends(c: Config, e: Epoch)
    ensures Ascending(Result(c, e).events, |e.stream|)
  {
    if c.vad {
      WindowsAscend(c, e.from, e.stream, e.base, Full(e));
    }
  }

  /** The next event of the frame: a speech end commits exactly up to its window. */
  lemma NextEvent(c: Config, e: Epoch, sent: seq<Message>, utterances: seq<Bytes>, n: nat, i: nat,
      events: seq<Event>, d: int)
    requires Committed(c, e, sent, utterances, n + i) && i < |events| && e.taken <= |e.stream|
    requires Shifted(events, Result(c, e).events[n..], d)
    ensures events[i].SpeechStopped? ==> events[i].end + d >= e.taken
    ensures var size := if events[i].SpeechStopped? then events[i].end + d - e.taken else 0;
            if events[i].SpeechStopped? then
              && 0 <= size <= |e.stream| - e.taken
              && Committed(c, e.(taken := e.taken + size), sent + [MessageOf(events[i])], utterances + [e.stream[e.taken..e.taken + size]], n + i + 1)
            else Committed(c, e, sent + [MessageOf(events[i])], utterances, n + i + 1)
  {
    var all := Result(c, e).events;
    assert events[i] == ShiftedEvent(all[n..][i], d);
    assert all[n..][i] == all[n + i];
    ResultAscends(c, e);
    if events[i].SpeechStopped? {
      var size := events[i].end + d - e.taken;
      assert Result(c, e.(taken := e.taken + size)) == Result(c, e);
    }
  }

  lemma FrameCommitted(c: Config, e: Epoch, pcm: Bytes, sent: seq<Message>, utterances: seq<Bytes>)
    requires Committed(c, e, sent, utterances, |Result(c, e).events|)
    requires Result(c, e).events <= Result(c, e.(stream := e.stream + pcm)).events
    ensures Committed(c, e.(stream := e.stream + pcm), sent, utterances, |Result(c, e).events|)
  {
    var now := e.(stream := e.stream + pcm);
    var a, b := Result(c, e).events, Result(c, now).events;
    assert b == a + b[|a|..];
    ResultAscends(c, e);
    BoundaryOfPrefix(a, b[|a|..], |a|);
    PublishedOfPrefix(a, b[|a|..], |a|);
    UtterancesOfPrefix(e.stream, pcm, a, b[|a|..], |a|);
  }

  /** For every packetisation into even-length frames: unless a frame overflows the buffer, the
      events and the utterances are those of the whole audio. */
  method Receive(config: Config, frames: seq<Bytes>)
    returns (overflowed: bool, sent: seq<Message>, utterances: seq<Bytes>, rest: Bytes)
    requires forall i :: 0 <= i < |frames| ==> |frames[i]| % 2 == 0
    ensures !overflowed ==>
      var stream := Joined(frames);
      var events := if config.vad then Edges(config, Vad([], false, 0), stream, 0, |stream| / WINDOW_BYTES) else [];
      && sent == Published(events, |events|)
      && utterances == Utterances(stream, events, |events|)
      && Joined(utterances) + rest == stream
  {
    var handler := new Handler(config);
    overflowed := false;
    for i := 0 to |frames|
      invariant handler.Valid() && fresh(handler) && fresh(handler.buffer)
      invariant !overflowed ==>
        var e := handler.buffer.epoch;
        e.stream == Joined(frames[..i]) && e.from == Vad([], false, 0) && e.base == 0
    {
      assert frames[..i + 1][..i] == frames[..i];
      var ok := handler.HandleAppend(frames[i]);
      overflowed := overflowed || !ok;
    }
    assert frames[..|frames|] == frames;
    sent, utterances, rest := handler.sent, handler.utterances, handler.buffer.buffer;
    Remainder(config, handler.buffer.epoch, sent, utterances);
    WindowsAreEdges(config, Vad([], false, 0), Joined(frames), 0, |Joined(frames)| / WINDOW_BYTES);
  }

  lemma Remainder(c: Config, e: Epoch, sent: seq<Message>, utterances: seq<Bytes>)
    requires Committed(c, e, sent, utterances, |Result(c, e).events|) && e.taken <= |e.stream|
    ensures Joined(utterances) + e.stream[e.taken..] == e.stream
  {
    var events := Result(c, e).events;
    ResultAscends(c, e);
    UtterancesAreThePrefix(e.stream, events, |events|);
    assert e.stream[..e.taken] + e.stream[e.taken..] == e.stream;
  }
}
