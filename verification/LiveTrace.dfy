/** What a live session sends, in order, and what a client may rely on. */
module LiveTrace {

  import opened Text
  import LiveTextSegmenter

  type TextSegment = LiveTextSegmenter.TextSegment

  datatype Status = Completed | Failed | Dropped   // Dropped is "cancelled"

  datatype Sent =
    | Created(response: nat, generation: nat, segment: TextSegment)
    | Delta(response: nat, generation: nat, sequence: nat)
    | AudioDone(response: nat, generation: nat)
    | Done(response: nat, generation: nat, status: Status)
    | Cancelled(generation: nat)
    | InputDone(generation: nat)
    | Skipped(generation: nat, segment: TextSegment)
    | Accepted(accepted: nat, buffered: nat, generation: nat)
    | Committed(accepted: nat, generation: nat)
    | Updated | Paused | Resumed | KeepaliveAck
    | Error(code: string)

  datatype Trace = Nothing | Then(before: Trace, event: Sent)

  predicate MadeFor(t: Trace, response: nat, generation: nat) {
    t.Then? && (Creates(t.event, response, generation) || MadeFor(t.before, response, generation))
  }

  predicate Creates(e: Sent, response: nat, generation: nat) {
    e.Created? && e.response == response && e.generation == generation
  }

  predicate Known(t: Trace, response: nat) {
    t.Then? && ((t.event.Created? && t.event.response == response) || Known(t.before, response))
  }

  predicate AudioEnded(t: Trace, response: nat) {
    t.Then? && ((t.event.AudioDone? && t.event.response == response) || AudioEnded(t.before, response))
  }

  predicate IsDone(t: Trace, response: nat) {
    t.Then? && ((t.event.Done? && t.event.response == response) || IsDone(t.before, response))
  }

  predicate WasCancelled(t: Trace, generation: nat) {
    t.Then? && (t.event == Cancelled(generation) || WasCancelled(t.before, generation))
  }

  /** How many audio deltas of a response were sent. */
  function Deltas(t: Trace, response: nat): nat {
    if t.Nothing? then 0
    else Deltas(t.before, response) + if t.event.Delta? && t.event.response == response then 1 else 0
  }

  predicate Open(t: Trace, response: nat, generation: nat) {
    MadeFor(t, response, generation) && !IsDone(t, response) && !AudioEnded(t, response)
  }

  /** What may be sent after `t`. In particular a response is created once and done at most once, its
      deltas are numbered 0, 1, 2, ... and come in between, and nothing but the end of a response
      that was already ending carries a generation after that generation was cancelled. Only segments
      with text become responses. */
  predicate Allowed(t: Trace, e: Sent) {
    match e
    case Created(r, g, segment) => !Known(t, r) && !WasCancelled(t, g) && segment.text != []
    case Delta(r, g, sequence) => Open(t, r, g) && sequence == Deltas(t, r) && !WasCancelled(t, g)
    case AudioDone(r, g) => Open(t, r, g) && !WasCancelled(t, g)
    case Done(r, g, _) => MadeFor(t, r, g) && !IsDone(t, r)
    case Cancelled(g) => !WasCancelled(t, g)
    case InputDone(g) => !WasCancelled(t, g)
    case Skipped(g, segment) => !WasCancelled(t, g) && segment.text == []
    case Accepted(_, _, g) => !WasCancelled(t, g)
    case Committed(_, g) => !WasCancelled(t, g)
    case _ => true
  }

  predicate Orderly(t: Trace) {
    t.Then? ==> Orderly(t.before) && Allowed(t.before, t.event)
  }

  lemma {:induction false} FreshResponse(t: Trace, response: nat)
    requires Orderly(t) && !Known(t, response)
    ensures Deltas(t, response) == 0 && !IsDone(t, response) && !AudioEnded(t, response)
  {
    if t.Then? {
      FreshResponse(t.before, response);
      if t.event.Delta? || t.event.AudioDone? || t.event.Done? { MadeIsKnown(t.before, t.event.response, t.event.generation); }
    }
  }

  lemma {:induction false} MadeIsKnown(t: Trace, response: nat, generation: nat)
    requires MadeFor(t, response, generation)
    ensures Known(t, response)
  {
    if !Creates(t.event, response, generation) { MadeIsKnown(t.before, response, generation); }
  }

  // ------------------------------------------------------------ what became of the segments

  /** What an event says about the segments of a generation: one is spoken or skipped, or (None) there are
      no more. */
  function Answer(e: Sent, generation: nat): seq<Option<TextSegment>> {
    match e
    case Created(_, g, segment) => if g == generation then [Some(segment)] else []
    case Skipped(g, segment) => if g == generation then [Some(segment)] else []
    case InputDone(g) => if g == generation then [None] else []
    case _ => []
  }

  function Answered(t: Trace, generation: nat): seq<Option<TextSegment>> {
    if t.Nothing? then [] else Answered(t.before, generation) + Answer(t.event, generation)
  }

  /** The segments `produced` for a generation are answered in order, one by one, and the others are still
      `pending`, unless they are `lost` in a session that closes. Later generations have none. */
  ghost predicate Conserved(t: Trace, generation: nat, produced: seq<Option<TextSegment>>, pending: seq<Option<TextSegment>>, lost: bool) {
    && (forall g: nat :: g > generation ==> Answered(t, g) == [])
    && Answered(t, generation) <= produced
    && (!lost ==> Answered(t, generation) + pending == produced)
  }

  /** Nothing is said about a segment. */
  ghost predicate SaysNothing(t: Trace, t': Trace) {
    t' == t || (t'.Then? && t'.before == t && !t'.event.Created? && !t'.event.Skipped? && !t'.event.InputDone?)
  }

  lemma ConservedSame(t: Trace, t': Trace, generation: nat, produced: seq<Option<TextSegment>>, pending: seq<Option<TextSegment>>,
      lost: bool, pending': seq<Option<TextSegment>>, lost': bool)
    requires Conserved(t, generation, produced, pending, lost) && SaysNothing(t, t')
    requires (lost ==> lost') && (!lost' ==> pending' == pending)
    ensures Conserved(t', generation, produced, pending', lost')
  {
    forall g: nat ensures Answered(t', g) == Answered(t, g) {
      if t' != t { assert Answered(t', g) == Answered(t, g) + []; }
    }
  }

  lemma ConservedMore(t: Trace, generation: nat, produced: seq<Option<TextSegment>>, pending: seq<Option<TextSegment>>, lost: bool,
      more: seq<Option<TextSegment>>)
    requires Conserved(t, generation, produced, pending, lost)
    ensures Conserved(t, generation, produced + more, pending + more, lost)
  {
    assert !lost ==> Answered(t, generation) + (pending + more) == (Answered(t, generation) + pending) + more;
  }

  lemma ConservedAnswered(t: Trace, e: Sent, generation: nat, produced: seq<Option<TextSegment>>, pending: seq<Option<TextSegment>>,
      first: Option<TextSegment>)
    requires Conserved(t, generation, produced, [first] + pending, false)
    requires Answer(e, generation) == [first] && Carries(e, generation)
    ensures Conserved(Then(t, e), generation, produced, pending, false)
  {
    assert Answered(t, generation) + [first] + pending == Answered(t, generation) + ([first] + pending);
    forall g: nat | g > generation ensures Answered(Then(t, e), g) == [] {
      assert Answered(Then(t, e), g) == Answered(t, g) + [];
    }
  }

  lemma ConservedCancelled(t: Trace, generation: nat, produced: seq<Option<TextSegment>>, pending: seq<Option<TextSegment>>, lost: bool, lost': bool)
    requires Conserved(t, generation, produced, pending, lost)
    ensures Conserved(Then(t, Cancelled(generation)), generation + 1, [], [], lost')
  {
    forall g: nat | g > generation ensures Answered(Then(t, Cancelled(generation)), g) == [] {
      assert Answered(Then(t, Cancelled(generation)), g) == Answered(t, g) + [];
    }
  }

  // ------------------------------------------------------------- what a client may rely on

  predicate Carries(e: Sent, generation: nat) {
    match e
    case Created(_, g, _) => g == generation
    case Delta(_, g, _) => g == generation
    case AudioDone(_, g) => g == generation
    case Done(_, g, _) => g == generation
    case Cancelled(g) => g == generation
    case InputDone(g) => g == generation
    case Skipped(g, _) => g == generation
    case Accepted(_, _, g) => g == generation
    case Committed(_, g) => g == generation
    case _ => false
  }

  /** Two events, the first sent before the second: nothing but the end of a response carries a
      generation after its cancellation, and a response that is done is not heard of again. */
  ghost predicate InTurn(a: Sent, b: Sent) {
    match a
    case Cancelled(g) => Carries(b, g) ==> b.Done?
    case Done(r, _, _) => b.Created? || b.Delta? || b.AudioDone? || b.Done? ==> b.response != r
    case AudioDone(r, _) => b.Created? || b.Delta? || b.AudioDone? ==> b.response != r
    case Delta(r, g, n) => (b.Delta? || b.Created?) && b.response == r ==> b.Delta? && n < b.sequence && b.generation == g
    case Created(r, _, _) => b.Created? ==> b.response != r
    case _ => true
  }

  function Events(t: Trace): seq<Sent> {
    if t.Nothing? then [] else Events(t.before) + [t.event]
  }

  /** What the trace still knows of an event. */
  ghost predicate Recorded(t: Trace, e: Sent) {
    match e
    case Cancelled(g) => WasCancelled(t, g)
    case Done(r, _, _) => IsDone(t, r) && Known(t, r)
    case AudioDone(r, _) => AudioEnded(t, r) && Known(t, r)
    case Delta(r, g, n) => n < Deltas(t, r) && MadeFor(t, r, g) && Known(t, r)
    case Created(r, _, _) => Known(t, r)
    case _ => true
  }

  lemma {:induction false} PastEvent(t: Trace, i: nat)
    requires Orderly(t) && i < |Events(t)|
    ensures Recorded(t, Events(t)[i])
  {
    if i < |Events(t.before)| {
      PastEvent(t.before, i);
    } else if t.event.Delta? || t.event.AudioDone? || t.event.Done? {
      MadeIsKnown(t.before, t.event.response, t.event.generation);
    }
  }

  lemma {:induction false} MadeOnce(t: Trace, response: nat, a: nat, b: nat)
    requires Orderly(t) && MadeFor(t, response, a) && MadeFor(t, response, b)
    ensures a == b
  {
    if Creates(t.event, response, a) {
      if !Creates(t.event, response, b) { MadeIsKnown(t.before, response, b); }
    } else if Creates(t.event, response, b) {
      MadeIsKnown(t.before, response, a);
    } else {
      MadeOnce(t.before, response, a, b);
    }
  }

  lemma {:induction false} OrderlyInTurn(t: Trace, i: nat, j: nat)
    requires Orderly(t) && i < j < |Events(t)|
    ensures InTurn(Events(t)[i], Events(t)[j])
  {
    if j < |Events(t.before)| {
      OrderlyInTurn(t.before, i, j);
    } else {
      var a, b := Events(t)[i], t.event;
      PastEvent(t.before, i);
      if a.Delta? && b.Delta? && a.response == b.response {
        MadeOnce(t.before, a.response, a.generation, b.generation);
      }
    }
  }

  /** How many audio deltas of a response are among the events. */
  function CountDeltas(events: seq<Sent>, response: nat): nat {
    if events == [] then 0
    else
      var last := events[|events| - 1];
      CountDeltas(events[..|events| - 1], response) + if last.Delta? && last.response == response then 1 else 0
  }

  lemma {:induction false} DeltasCounted(t: Trace, response: nat)
    ensures CountDeltas(Events(t), response) == Deltas(t, response)
  {
    if t.Then? {
      assert Events(t)[..|Events(t)| - 1] == Events(t.before);
      DeltasCounted(t.before, response);
    }
  }

  /** The deltas of a response are numbered 0, 1, 2, ... without a gap. */
  ghost predicate Numbered(events: seq<Sent>, i: nat) {
    i < |events| && events[i].Delta? ==> events[i].sequence == CountDeltas(events[..i], events[i].response)
  }

  lemma {:induction false} DeltasNumbered(t: Trace, i: nat)
    requires Orderly(t)
    ensures Numbered(Events(t), i)
  {
    if t.Then? {
      assert Events(t)[..|Events(t)| - 1] == Events(t.before);
      if i < |Events(t.before)| {
        DeltasNumbered(t.before, i);
        assert Events(t)[..i] == Events(t.before)[..i];
      } else if t.event.Delta? {
        DeltasCounted(t.before, t.event.response);
      }
    }
  }
}
