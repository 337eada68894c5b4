/** The output side of a live session: playback that is not acknowledged yet, where the synthesis task
    is, and what every step keeps. */
module LiveOutput {

  import opened Text
  import opened LiveTrace

  // ---------------------------------------------------------------------------------- playback

  /** The frames of one response the client has not acknowledged: sequence number and seconds. */
  datatype Tracker = Tracker(durations: seq<(int, real)>, acked: int, outputDone: bool)
  type Playback = map<nat, Tracker>

  function Seconds(durations: seq<(int, real)>): real {
    if durations == [] then 0.0 else Seconds(durations[..|durations| - 1]) + durations[|durations| - 1].1
  }

  /** The seconds of all responses below `bound`. */
  function Unacked(playback: Playback, bound: nat): real {
    if bound == 0 then 0.0
    else Unacked(playback, bound - 1) + if bound - 1 in playback then Seconds(playback[bound - 1].durations) else 0.0
  }

  /** Exactly the frames acked + 1, ..., sent - 1 are held. */
  ghost predicate Tracks(tracker: Tracker, sent: int) {
    && tracker.acked >= -1 && |tracker.durations| == sent - 1 - tracker.acked
    && (forall k :: 0 <= k < |tracker.durations| ==> tracker.durations[k].0 == tracker.acked + 1 + k && tracker.durations[k].1 >= 0.0)
  }

  lemma {:induction false} UnackedElsewhere(a: Playback, b: Playback, bound: nat)
    requires forall r: nat :: r < bound ==> ((r in a <==> r in b) && (r in a ==> a[r] == b[r]))
    ensures Unacked(a, bound) == Unacked(b, bound)
  {
    if bound > 0 { UnackedElsewhere(a, b, bound - 1); }
  }

  function SecondsOf(playback: Playback, response: nat): real {
    if response in playback then Seconds(playback[response].durations) else 0.0
  }

  /** Changing one tracker changes the total by its difference. */
  lemma {:induction false} UnackedChange(a: Playback, b: Playback, bound: nat, response: nat)
    requires response < bound
    requires forall r: nat :: r < bound && r != response ==> ((r in a <==> r in b) && (r in a ==> a[r] == b[r]))
    ensures Unacked(b, bound) == Unacked(a, bound) - SecondsOf(a, response) + SecondsOf(b, response)
  {
    if response == bound - 1 {
      UnackedElsewhere(a, b, bound - 1);
    } else {
      UnackedChange(a, b, bound - 1, response);
    }
  }

  lemma {:induction false} UnackedNothing(bound: nat)
    ensures Unacked(map[], bound) == 0.0
  {
    if bound > 0 { UnackedNothing(bound - 1); }
  }

  lemma {:induction false} SecondsDrop(durations: seq<(int, real)>, n: nat)
    requires n <= |durations| && forall k :: 0 <= k < |durations| ==> durations[k].1 >= 0.0
    ensures 0.0 <= Seconds(durations[n..]) <= Seconds(durations)
    decreases |durations|
  {
    if n < |durations| {
      var front := durations[..|durations| - 1];
      SecondsDrop(front, n);
      assert durations[n..][..|durations| - n - 1] == front[n..];
    } else if durations != [] {
      SecondsDrop(durations[..|durations| - 1], |durations| - 1);
      assert durations[..|durations| - 1][|durations| - 1..] == [];
    }
  }

  // --------------------------------------------------------------------------------- the tasks

  datatype Item = Item(generation: nat, segment: Option<TextSegment>)   // None closes the input

  /** What the segmenter task puts for one item of the input. */
  function Items(generation: nat, cut: seq<TextSegment>, commit: bool): (items: seq<Item>)
    ensures forall k :: 0 <= k < |items| ==> items[k].generation == generation
  {
    seq(|cut|, i requires 0 <= i < |cut| => Item(generation, Some(cut[i]))) + if commit then [Item(generation, None)] else []
  }

  /** The segments of a generation among some items. */
  function Of(items: seq<Item>, generation: nat): seq<Option<TextSegment>> {
    if items == [] then [] else OfOne(items[0], generation) + Of(items[1..], generation)
  }

  function OfOne(item: Item, generation: nat): seq<Option<TextSegment>> {
    if item.generation == generation then [item.segment] else []
  }

  lemma {:induction false} OfConcat(a: seq<Item>, b: seq<Item>, generation: nat)
    ensures Of(a + b, generation) == Of(a, generation) + Of(b, generation)
  {
    if a == [] {
      assert a + b == b;
    } else {
      var one := OfOne(a[0], generation);
      assert (a + b)[1..] == a[1..] + b;
      OfConcat(a[1..], b, generation);
      assert one + (Of(a[1..], generation) + Of(b, generation)) == one + Of(a[1..], generation) + Of(b, generation);
    }
  }

  lemma {:induction false} OfOlder(items: seq<Item>, generation: nat)
    requires forall k :: 0 <= k < |items| ==> items[k].generation < generation
    ensures Of(items, generation) == []
  {
    if items != [] { OfOlder(items[1..], generation); }
  }

  /** The segments of a generation that are neither spoken nor skipped yet: the one held back for playback,
      those queued, and those the segmenter task has still to put. */
  function Unanswered(s: Speaker, segments: seq<Item>, feeding: seq<Item>, generation: nat): seq<Option<TextSegment>> {
    (if s.Held? then OfOne(s.item, generation) else []) + Of(segments, generation) + Of(feeding, generation)
  }

  /** A session that closes speaks no more segments. */
  predicate Loses(s: Speaker, closing: bool) { closing || s.HeldClosing? || s.Stopped? }

  lemma PutKeeps(s: Speaker, segments: seq<Item>, feeding: seq<Item>, segments': seq<Item>, feeding': seq<Item>, generation: nat)
    requires segments' + feeding' == segments + feeding
    ensures Unanswered(s, segments', feeding', generation) == Unanswered(s, segments, feeding, generation)
  {
    UnansweredOf(s, segments, feeding, generation);
    UnansweredOf(s, segments', feeding', generation);
  }

  lemma UnansweredOf(s: Speaker, segments: seq<Item>, feeding: seq<Item>, generation: nat)
    ensures Unanswered(s, segments, feeding, generation)
            == (if s.Held? then OfOne(s.item, generation) else []) + Of(segments + feeding, generation)
  {
    OfConcat(segments, feeding, generation);
  }

  lemma TakeKeeps(segments: seq<Item>, feeding: seq<Item>, s: Speaker, generation: nat)
    requires segments != [] && s == if segments[0].generation == generation then Held(segments[0]) else Listening
    ensures Unanswered(s, segments[1..], feeding, generation) == Unanswered(Listening, segments, feeding, generation)
  {
    assert [] + Of(segments, generation) == OfOne(segments[0], generation) + Of(segments[1..], generation);
  }

  /** Where the synthesis task is. */
  datatype Speaker =
    | Listening                                     // waits for a segment
    | Held(item: Item)                              // has one, waits for playback
    | HeldClosing                                   // gave up waiting, is closing the connection
    | Speaking(response: nat, generation: nat, status: Status, next: nat)   // waits for the worker's item `next`
    | Holding(response: nat, generation: nat, status: Status, next: nat, duration: real)   // has it, waits for playback
    | HoldingClosing(response: nat, generation: nat)
    | Ending(response: nat, generation: nat, status: Status)
    | Finishing(response: nat, generation: nat, status: Status)             // has response.done left to send
    | Stopped

  predicate Busy(s: Speaker) {
    s.Speaking? || s.Holding? || s.HoldingClosing? || s.Ending? || s.Finishing?
  }

  /** The response the task is at is the newest, it is still open, and the worker's item number is
      the number of the next delta. */
  ghost predicate Talks(s: Speaker, t: Trace, generation: nat, workerCancel: bool, next: nat) {
    && (Busy(s) ==> s.response + 1 == next && s.generation <= generation && MadeFor(t, s.response, s.generation) && !IsDone(t, s.response))
    && (Busy(s) && !s.Finishing? ==> !AudioEnded(t, s.response))
    && (s.Speaking? ==> (s.generation == generation && !workerCancel ==> Deltas(t, s.response) == s.next))
    && (s.Holding? ==> Deltas(t, s.response) == s.next && s.duration >= 0.0)
  }

  /** The trace is orderly and behind the counters. */
  ghost predicate Told(t: Trace, generation: nat, next: nat) {
    && Orderly(t)
    && (forall g: nat :: WasCancelled(t, g) ==> g < generation)
    && (forall r: nat :: Known(t, r) ==> r < next)
  }

  /** The trackers are exact; one that waits for more output is that of the current response. */
  ghost predicate Plays(playback: Playback, t: Trace, s: Speaker, generation: nat, next: nat) {
    && (forall r :: r in playback ==> r < next && Tracks(playback[r], Deltas(t, r)))
    && (forall r :: r in playback ==> if playback[r].outputDone then playback[r].durations != [] else Busy(s) && !s.Finishing? && s.response == r)
    && (Busy(s) && !s.Finishing? && s.generation == generation ==> s.response in playback && !playback[s.response].outputDone)
  }

  lemma ToldMore(t: Trace, e: Sent, generation: nat, next: nat, generation': nat, next': nat)
    requires Told(t, generation, next) && Allowed(t, e) && generation <= generation' && next <= next'
    requires (e.Cancelled? ==> e.generation < generation') && (e.Created? ==> e.response < next')
    ensures Told(Then(t, e), generation', next')
  {
    forall g: nat | WasCancelled(Then(t, e), g) ensures g < generation' {
      assert e == Cancelled(g) || WasCancelled(t, g);
    }
    forall r: nat | Known(Then(t, e), r) ensures r < next' {
      assert (e.Created? && e.response == r) || Known(t, r);
    }
  }

  datatype Config = Config(maxBuffer: nat, maxPending: nat, limit: real, maxFrame: real) {
    ghost predicate Valid() { maxPending >= 1 && limit >= 0.0 && maxFrame > 0.0 }
  }

  /** What holds for the parts of the session that deal with output. */
  ghost predicate OutputSound(c: Config, playback: Playback, t: Trace, s: Speaker, generation: nat,
      workerCancel: bool, next: nat) {
    && Told(t, generation, next) && Talks(s, t, generation, workerCancel, next)
    && Plays(playback, t, s, generation, next)
    && Unacked(playback, next) < c.limit + c.maxFrame
    && (s.Held? ==> s.item.generation <= generation) && (s.Holding? ==> s.duration <= c.maxFrame)
  }

  /** Neither a delta nor the start or end of a response. */
  predicate Announces(e: Sent, generation: nat) {
    || e.Error? || e.Updated? || e.Paused? || e.Resumed? || e.KeepaliveAck?
    || ((e.InputDone? || e.Accepted? || e.Committed?) && e.generation == generation)
    || (e.Skipped? && e.generation == generation && e.segment.text == [])
  }

  lemma OtherSent(c: Config, playback: Playback, t: Trace, s: Speaker, generation: nat, workerCancel: bool,
      next: nat, e: Sent)
    requires OutputSound(c, playback, t, s, generation, workerCancel, next)
    requires Announces(e, generation)
    ensures OutputSound(c, playback, Then(t, e), s, generation, workerCancel, next)
  {
    ToldMore(t, e, generation, next, generation, next);
  }

  lemma CancelStep(c: Config, playback: Playback, t: Trace, s: Speaker, generation: nat, workerCancel: bool, next: nat)
    requires c.Valid() && OutputSound(c, playback, t, s, generation, workerCancel, next)
    ensures OutputSound(c, map[], Then(t, Cancelled(generation)), s, generation + 1, true, next)
  {
    ToldMore(t, Cancelled(generation), generation, next, generation + 1, next);
    UnackedNothing(next);
  }

  /** A new response. */
  lemma CreateStep(c: Config, playback: Playback, t: Trace, s: Speaker, generation: nat, workerCancel: bool, next: nat)
    requires OutputSound(c, playback, t, s, generation, workerCancel, next) && s.Held?
    requires s.item.segment.Some? && s.item.segment.value.text != []
    ensures OutputSound(c, playback[next := Tracker([], -1, false)], Then(t, Created(next, generation, s.item.segment.value)),
                        Speaking(next, generation, Completed, 0), generation, false, next + 1)
  {
    FreshResponse(t, next);
    ToldMore(t, Created(next, generation, s.item.segment.value), generation, next, generation, next + 1);
    UnackedChange(playback, playback[next := Tracker([], -1, false)], next + 1, next);
    assert next !in playback;
  }

  /** A frame: the tracker grows with the trace. */
  lemma DeltaStep(c: Config, playback: Playback, t: Trace, s: Speaker, generation: nat, workerCancel: bool, next: nat)
    requires OutputSound(c, playback, t, s, generation, workerCancel, next)
    requires s.Holding? && s.generation == generation && Unacked(playback, next) < c.limit
    ensures s.response in playback
    ensures var tracker := playback[s.response];
            var more := tracker.(durations := tracker.durations + [(s.next, s.duration)]);
            OutputSound(c, playback[s.response := more], Then(t, Delta(s.response, generation, s.next)),
                        Speaking(s.response, generation, s.status, s.next + 1), generation, workerCancel, next)
  {
    var tracker := playback[s.response];
    var more := tracker.(durations := tracker.durations + [(s.next, s.duration)]);
    assert more.durations[..|tracker.durations|] == tracker.durations;
    ToldMore(t, Delta(s.response, generation, s.next), generation, next, generation, next);
    UnackedChange(playback, playback[s.response := more], next, s.response);
  }

  /** What an acknowledgement leaves of a tracker. */
  function Acknowledged(tracker: Tracker, sequence: int): Tracker
    requires tracker.durations != [] && tracker.acked < sequence && Tracks(tracker, tracker.acked + 1 + |tracker.durations|)
  {
    var last := tracker.durations[|tracker.durations| - 1].0;
    var upTo := if sequence < last then sequence else last;
    Tracker(tracker.durations[upTo - tracker.acked..], upTo, tracker.outputDone)
  }

  /** An acknowledgement of something the session holds. */
  ghost predicate Acks(playback: Playback, response: nat, sequence: int) {
    && response in playback && playback[response].durations != [] && playback[response].acked < sequence
    && Tracks(playback[response], playback[response].acked + 1 + |playback[response].durations|)
  }

  ghost function AfterAck(playback: Playback, response: nat, sequence: int): Playback
    requires Acks(playback, response, sequence)
  {
    var less := Acknowledged(playback[response], sequence);
    if less.outputDone && less.durations == [] then playback - {response} else playback[response := less]
  }

  /** Exactly the frames after the acknowledged one stay. */
  lemma AcknowledgedExactly(tracker: Tracker, sequence: int, k: nat)
    requires tracker.durations != [] && tracker.acked < sequence && Tracks(tracker, tracker.acked + 1 + |tracker.durations|)
    requires k < |tracker.durations|
    ensures tracker.durations[k] in Acknowledged(tracker, sequence).durations <==> tracker.durations[k].0 > sequence
  {
    var less := Acknowledged(tracker, sequence);
    if tracker.durations[k].0 > sequence {
      assert less.durations[k - (less.acked - tracker.acked)] == tracker.durations[k];
    }
  }

  /** The popping loop of the acknowledgement. */
  method PopAcked(tracker: Tracker, acked: int) returns (durations: seq<(int, real)>)
    requires Tracks(tracker, tracker.acked + 1 + |tracker.durations|)
    requires tracker.acked < acked <= tracker.acked + |tracker.durations|
    ensures durations == tracker.durations[acked - tracker.acked..]
  {
    durations := tracker.durations;
    while durations != [] && durations[0].0 <= acked
      invariant |durations| <= |tracker.durations| && durations == tracker.durations[|tracker.durations| - |durations|..]
      invariant |tracker.durations| - |durations| <= acked - tracker.acked
    {
      assert durations[1..] == tracker.durations[|tracker.durations| - |durations| + 1..];
      durations := durations[1..];
    }
  }

  method Acknowledge(tracker: Tracker, sequence: int) returns (less: Tracker)
    requires tracker.durations != [] && tracker.acked < sequence && Tracks(tracker, tracker.acked + 1 + |tracker.durations|)
    ensures less == Acknowledged(tracker, sequence)
  {
    var last := tracker.durations[|tracker.durations| - 1].0;
    var acked := if sequence < last then sequence else last;
    var durations := PopAcked(tracker, acked);
    less := Tracker(durations, acked, tracker.outputDone);
  }

  lemma AckTracks(t: Trace, playback: Playback, s: Speaker, generation: nat, next: nat, response: nat, sequence: int)
    requires Plays(playback, t, s, generation, next)
    requires response in playback && playback[response].durations != [] && playback[response].acked < sequence
    ensures Acks(playback, response, sequence)
    ensures Plays(AfterAck(playback, response, sequence), t, s, generation, next)
  {
    assert Tracks(playback[response], playback[response].acked + 1 + |playback[response].durations|);
    StaysExact(playback[response], sequence);
  }

  lemma StaysExact(tracker: Tracker, sequence: int)
    requires tracker.durations != [] && tracker.acked < sequence && Tracks(tracker, tracker.acked + 1 + |tracker.durations|)
    ensures Tracks(Acknowledged(tracker, sequence), tracker.acked + 1 + |tracker.durations|)
  {
  }

  lemma AckLowers(playback: Playback, next: nat, response: nat, sequence: int)
    requires Acks(playback, response, sequence) && response < next
    ensures Unacked(AfterAck(playback, response, sequence), next) <= Unacked(playback, next)
  {
    var tracker := playback[response];
    UnackedChange(playback, AfterAck(playback, response, sequence), next, response);
    SecondsDrop(tracker.durations, Acknowledged(tracker, sequence).acked - tracker.acked);
  }

  lemma AckStep(c: Config, playback: Playback, t: Trace, s: Speaker, generation: nat, workerCancel: bool, next: nat,
      response: nat, sequence: int)
    requires OutputSound(c, playback, t, s, generation, workerCancel, next)
    requires response in playback && playback[response].durations != [] && playback[response].acked < sequence
    ensures Acks(playback, response, sequence)
    ensures OutputSound(c, AfterAck(playback, response, sequence), t, s, generation, workerCancel, next)
    ensures Unacked(AfterAck(playback, response, sequence), next) <= Unacked(playback, next)
  {
    AckTracks(t, playback, s, generation, next, response, sequence);
    AckLowers(playback, next, response, sequence);
  }

  /** The end of a response: its tracker stays only while frames are unacknowledged. */
  function Ended(playback: Playback, response: nat): Playback {
    if response !in playback then playback
    else if playback[response].durations == [] then playback - {response}
    else playback[response := playback[response].(outputDone := true)]
  }

  /** What is sent at the end of a response, and where the task is then: a stale response is not
      mentioned any more, a failed one has no end of its audio. */
  function AtEnd(t: Trace, s: Speaker, told: bool): (Trace, Speaker)
    requires s.Ending?
  {
    if !told then (t, Listening)
    else if s.status == Failed then (Then(t, Done(s.response, s.generation, Failed)), Listening)
    else (Then(t, AudioDone(s.response, s.generation)), Finishing(s.response, s.generation, s.status))
  }

  lemma EndStep(c: Config, playback: Playback, t: Trace, s: Speaker, generation: nat, workerCancel: bool, next: nat, told: bool)
    requires OutputSound(c, playback, t, s, generation, workerCancel, next) && s.Ending? && (told ==> s.generation == generation)
    ensures OutputSound(c, Ended(playback, s.response), AtEnd(t, s, told).0, AtEnd(t, s, told).1, generation, workerCancel, next)
    ensures Unacked(Ended(playback, s.response), next) == Unacked(playback, next)
  {
    var more := AtEnd(t, s, told).0;
    if told { ToldMore(t, more.event, generation, next, generation, next); }
    EndPlays(playback, t, s, generation, next, told);
    UnackedChange(playback, Ended(playback, s.response), next, s.response);
  }

  lemma EndPlays(playback: Playback, t: Trace, s: Speaker, generation: nat, next: nat, told: bool)
    requires Plays(playback, t, s, generation, next) && s.Ending?
    ensures Plays(Ended(playback, s.response), AtEnd(t, s, told).0, AtEnd(t, s, told).1, generation, next)
  {
    forall r: nat ensures Deltas(AtEnd(t, s, told).0, r) == Deltas(t, r) {
    }
  }

  /** What becomes of a held segment when playback flows: one of an older generation is dropped, the end of the
      input is announced, a segment without text is skipped, and any other becomes a new response. */
  ghost predicate HeldPasses(item: Item, generation: nat, t: Trace, next: nat, playback: Playback,
      s': Speaker, t': Trace, next': nat, playback': Playback) {
    if item.generation == generation && item.segment.Some? && item.segment.value.text != [] then
      && s' == Speaking(next, generation, Completed, 0) && next' == next + 1
      && t' == Then(t, Created(next, generation, item.segment.value)) && playback' == playback[next := Tracker([], -1, false)]
    else
      && s' == Listening && next' == next && playback' == playback
      && t' == if item.generation != generation then t
               else Then(t, if item.segment == None then InputDone(generation) else Skipped(generation, item.segment.value))
  }

  lemma PassKeeps(item: Item, generation: nat, t: Trace, next: nat, playback: Playback, s': Speaker, t': Trace, next': nat,
      playback': Playback, segments: seq<Item>, feeding: seq<Item>, produced: seq<Option<TextSegment>>)
    requires HeldPasses(item, generation, t, next, playback, s', t', next', playback')
    requires Conserved(t, generation, produced, Unanswered(Held(item), segments, feeding, generation), false)
    ensures Conserved(t', generation, produced, Unanswered(s', segments, feeding, generation), false)
  {
    var pending := Unanswered(s', segments, feeding, generation);
    assert Unanswered(Held(item), segments, feeding, generation) == OfOne(item, generation) + pending;
    if item.generation == generation {
      ConservedAnswered(t, t'.event, generation, produced, pending, item.segment);
    } else {
      assert [] + pending == pending;
    }
  }

  /** What becomes of a held frame: it is sent and tracked, unless its generation is over. */
  ghost predicate FramePasses(s: Speaker, generation: nat, t: Trace, playback: Playback, s': Speaker, t': Trace, playback': Playback)
    requires s.Holding?
  {
    && s' == Speaking(s.response, s.generation, if s.generation == generation then s.status else Dropped, s.next + 1)
    && if s.generation == generation then
         && t' == Then(t, Delta(s.response, generation, s.next)) && s.response in playback
         && playback' == playback[s.response := playback[s.response].(durations := playback[s.response].durations + [(s.next, s.duration)])]
       else t' == t && playback' == playback
  }

  /** What becomes of either when the session is closing. */
  function PassClosed(s: Speaker): Speaker {
    if s.Held? then Stopped else if s.Holding? then Ending(s.response, s.generation, Dropped) else s
  }

  /** A move of the synthesis task that sends nothing. */
  ghost predicate Moves(c: Config, s: Speaker, s': Speaker, generation: nat, workerCancel: bool, workerCancel': bool) {
    && (workerCancel ==> workerCancel')
    && if !Busy(s) then !Busy(s') && (s'.Held? ==> s'.item.generation <= generation)
       else
         && Busy(s') && !s.Finishing? && !s'.Finishing? && s'.response == s.response && s'.generation == s.generation
         && (s'.Speaking? ==> s'.generation != generation || workerCancel')
         && (s'.Holding? ==>
               if s.Holding? then s' == s
               else s.Speaking? && s'.next == s.next && s.generation == generation && !workerCancel && 0.0 <= s'.duration <= c.maxFrame)
  }

  lemma MoveStep(c: Config, playback: Playback, t: Trace, s: Speaker, s': Speaker, generation: nat,
      workerCancel: bool, workerCancel': bool, next: nat)
    requires OutputSound(c, playback, t, s, generation, workerCancel, next) && Moves(c, s, s', generation, workerCancel, workerCancel')
    ensures OutputSound(c, playback, t, s', generation, workerCancel', next)
  {
  }

  lemma StopsWorker(c: Config, playback: Playback, t: Trace, s: Speaker, generation: nat, workerCancel: bool, next: nat)
    requires OutputSound(c, playback, t, s, generation, workerCancel, next)
    ensures OutputSound(c, playback, t, s, generation, true, next)
  {
  }

  lemma FinishStep(c: Config, playback: Playback, t: Trace, s: Speaker, generation: nat, workerCancel: bool, next: nat)
    requires OutputSound(c, playback, t, s, generation, workerCancel, next) && s.Finishing?
    ensures OutputSound(c, playback, Then(t, Done(s.response, s.generation, s.status)), Listening, generation, workerCancel, next)
  {
    ToldMore(t, Done(s.response, s.generation, s.status), generation, next, generation, next);
  }
}
